/** The two append methods as written: one statement after another, any of which may fail, with
    the deferred rollback. Nothing runs beside a call here; `Transactions` covers that. */
module Ledgers {
  import opened Domain
  import opened Ledger
  import opened Transactions
  import opened Refinement

  /** `Failed` is an error of a statement or of the connection before the commit, `CommitFailed`
      one of the commit itself: the transaction may have been committed all the same. */
  datatype LedgerError =
    | SubmissionTimeRequired | Refused(refusal: Refusal) | Failed | CommitFailed

  /** What may fail: nothing, any statement and any reply, or just the reply to every commit. */
  datatype Outage = Never | Anywhere | AfterCommit

  predicate HasId(outbox: seq<OutboxRow>, id: Uuid) {
    exists i :: 0 <= i < |outbox| && outbox[i].stamp.id == id
  }

  /** The outbox gains one row with a new identifier for an inserted anti-snipe bid, and nothing
      otherwise. */
  predicate OutboxGrows(before: seq<OutboxRow>, after: seq<OutboxRow>, bid: Bid, at: Time, r: Response) {
    if r.AntiSnipeResponse? && r.inserted then
      && |after| == |before| + 1
      && after[..|before|] == before
      && after[|before|].event == BidAccepted(bid, r.seqNo, at, r.close, r.extended, r.count)
      && !HasId(before, after[|before|].stamp.id)
    else after == before
  }

  /** The committed effect of a call that was answered with `r`: the atomic append. */
  predicate Outcome(before: Db, after: Db, path: Path, bid: Bid, at: Time, r: Response) {
    && bid.auctionId in before.auctions
    && Append(path, AuctionOf(before.auctions[bid.auctionId]), bid, at).1 == Ok(r)
    && BookOf(after) == BookOf(before)[bid.auctionId :=
         Append(path, AuctionOf(before.auctions[bid.auctionId]), bid, at).0]
    && OutboxGrows(before.outbox, after.outbox, bid, at, r)
  }

  /** What the caller is told, in the rows: one has the key and that number, it was inserted exactly
      when none had the key before, and then just that row was added. */
  ghost predicate RowsTold(before: Db, after: Db, bid: Bid, r: Response) {
    && bid.auctionId in before.auctions && bid.auctionId in after.auctions
    && (exists row :: row in after.auctions[bid.auctionId].bids
                      && row.bid.key == bid.key && row.seqNo == r.seqNo)
    && (r.inserted <==> forall row :: row in before.auctions[bid.auctionId].bids ==>
                          row.bid.key != bid.key)
    && after.auctions[bid.auctionId].bids == before.auctions[bid.auctionId].bids
         + (if r.inserted then [BidRow(r.seqNo, bid)] else [])
  }

  /** One event for an inserted bid, about that bid and this call; none otherwise. */
  predicate EventTold(before: seq<OutboxRow>, after: seq<OutboxRow>, bid: Bid, at: Time, r: Response) {
    && r.AntiSnipeResponse?
    && before <= after && |after| == |before| + (if r.inserted then 1 else 0)
    && (r.inserted ==>
          var event := after[|before|].event;
          && event.bid == bid && event.submittedAt == at && event.seqNo == r.seqNo
          && event.close == r.close && event.extended == r.extended && event.count == r.count)
  }

  /** The atomic append refuses as well. */
  predicate RefusedBy(db: Db, path: Path, bid: Bid, at: Time, refusal: Refusal) {
    if bid.auctionId !in db.auctions then refusal == UnknownAuction
    else Append(path, AuctionOf(db.auctions[bid.auctionId]), bid, at).1 == Err(refusal)
  }

  /** `SELECT sequence_no FROM bids WHERE ... idempotency_key = $2`. */
  method SelectSequence(rows: seq<BidRow>, key: Uuid) returns (found: Option<int>)
    ensures found.Some? <==> HasKey(BidsOf(rows), key)
    ensures found.Some? ==> found.value == FoundSeqNo(rows, key)
  {
    for i := 0 to |rows|
      invariant forall j :: 0 <= j < i ==> BidsOf(rows)[j].key != key
    {
      if rows[i].bid.key == key {
        assert BidsOf(rows)[i].key == key;
        return Some(rows[i].seqNo);
      }
    }
    return None;
  }

  lemma InsertedRows(t: Tables, t': Tables, bid: Bid)
    requires WellFormed(t) && !HasKey(BidsOf(t.bids), bid.key)
    requires t' == t.(close := t'.close, count := t'.count, counter := Some(|t.bids| + 1),
                      bids := t.bids + [BidRow(|t.bids| + 1, bid)])
    ensures WellFormed(t')
    ensures AuctionOf(t') == AuctionOf(t).(close := t'.close, count := t'.count,
                                           bids := AuctionOf(t).bids + [bid])
  {
    assert BidsOf(t'.bids) == BidsOf(t.bids) + [bid];
    forall i | 0 <= i < |t.bids| ensures BidsOf(t.bids)[i].key != bid.key {
    }
  }

  class LedgerStore {
    var db: Db
    const outage: Outage

    ghost predicate Valid()
      reads this
    {
      TablesInv(db)
    }

    constructor (db: Db, outage: Outage)
      requires TablesInv(db)
      ensures Valid() && this.db == db && this.outage == outage
    {
      this.db, this.outage := db, outage;
    }

    /** Whether the caller hears of a commit that took effect. */
    method Heard() returns (heard: bool)
      ensures outage.Never? ==> heard
      ensures outage.AfterCommit? ==> !heard
    {
      var lost := MayFail(outage.Anywhere?);
      heard := !outage.AfterCommit? && !lost;
    }

    /** The fate of a commit: whether it takes effect, and whether the caller hears so. */
    method Commit(auctionId: Uuid, rows: Tables, outbox: seq<OutboxRow>) returns (ok: bool)
      modifies this
      ensures ok || outage.AfterCommit? ==> db == Db(old(db).auctions[auctionId := rows], outbox)
      ensures db == old(db) || db == Db(old(db).auctions[auctionId := rows], outbox)
      ensures outage.Never? ==> ok
      ensures outage.AfterCommit? ==> !ok
    {
      var fails := MayFail(outage.Anywhere?);
      if fails {
        return false;
      }
      db := Db(db.auctions[auctionId := rows], outbox);
      ok := Heard();
    }

    /** An error leaves everything as it was, unless it is the commit of an insert that failed:
        then the append may have happened, whole. */
    method AppendBidIdempotentWithAntiSnipe(bid: Bid, submittedAt: Time)
      returns (r: Result<Response, LedgerError>)
      requires Valid()
      modifies this
      ensures Valid()
      ensures r.Ok? ==> Outcome(old(db), db, AntiSnipe, bid, submittedAt, r.value)
      ensures r.Ok? ==> RowsTold(old(db), db, bid, r.value)
      ensures r.Ok? ==> EventTold(old(db).outbox, db.outbox, bid, submittedAt, r.value)
      ensures r.Err? && r.error.Refused? ==>
                db == old(db) && RefusedBy(old(db), AntiSnipe, bid, submittedAt, r.error.refusal)
      ensures r == Err(SubmissionTimeRequired) <==> submittedAt == ZERO_TIME
      ensures r == Err(SubmissionTimeRequired) ==> db == old(db)
      ensures r == Err(Failed) ==> outage.Anywhere? && db == old(db)
      ensures r == Err(CommitFailed) ==>
                || db == old(db)
                || exists answer :: Outcome(old(db), db, AntiSnipe, bid, submittedAt, answer)
      ensures r == Err(CommitFailed) && HoldsKey(BookOf(old(db)), bid) ==> db == old(db)
      ensures r == Err(CommitFailed) ==> !outage.Never?
      ensures outage.AfterCommit? ==>
                r.Err? && (r == Err(CommitFailed) ==>
                  exists answer :: Outcome(old(db), db, AntiSnipe, bid, submittedAt, answer))
    {
      hide Append, Outcome, HoldsKey, BookOf, HasKey, Find, Numbered, DistinctKeys, RefusedBy, RowsTold,
           EventTold;
      KeyKnown(db, bid);
      ghost var was := db;
      if submittedAt == ZERO_TIME {
        return Err(SubmissionTimeRequired);
      }
      // Each statement may fail.
      var fails := MayFail(outage.Anywhere?);
      if fails { return Err(Failed); }
      if bid.auctionId !in db.auctions {
        NoAuction(db, bid, submittedAt);
        return Err(Refused(UnknownAuction));
      }
      var rows := db.auctions[bid.auctionId];
      ghost var before := rows;
      assert WellFormed(before);
      var currentCloseTime, extensionCount := rows.close, rows.count;

      fails := MayFail(outage.Anywhere?);
      if fails { return Err(Failed); }
      var existing := SelectSequence(rows.bids, bid.key);
      if existing.Some? {
        ghost var answer :=
          AntiSnipeResponse(existing.value, false, false, currentCloseTime, extensionCount);
        ReplayOutcome(db, bid, submittedAt);
        var heard := Heard();
        if !heard { return Err(CommitFailed); }
        RowsTell(db, db, AntiSnipe, bid, submittedAt, answer);
        return Ok(AntiSnipeResponse(existing.value, false, false, currentCloseTime, extensionCount));
      }
      Refusals(db, bid, submittedAt);
      if submittedAt >= currentCloseTime {
        return Err(Refused(AtOrAfterClose));
      }

      fails := MayFail(outage.Anywhere?);
      if fails { return Err(Failed); }
      if rows.counter.None? {
        rows := rows.(counter := Some(0));
      }
      fails := MayFail(outage.Anywhere?);
      if fails { return Err(Failed); }
      var lastSequence := rows.counter.value;
      var nextSequence := lastSequence + 1;

      fails := MayFail(outage.Anywhere?);
      if fails { return Err(Failed); }
      if bid.amount <= 0 {
        return Err(Refused(CheckViolated));
      }
      // ON CONFLICT finds nothing: the key was looked up under the auction lock.
      rows := rows.(bids := rows.bids + [BidRow(nextSequence, bid)]);

      fails := MayFail(outage.Anywhere?);
      if fails || rows.counter != Some(lastSequence) { return Err(Failed); }
      rows := rows.(counter := Some(nextSequence));

      fails := MayFail(outage.Anywhere?);
      if fails { return Err(Failed); }
      var extended := rows.close - rows.terms.window <= submittedAt < rows.close
                      && rows.count < rows.terms.maxExtensions;
      if extended {
        rows := rows.(close := rows.close + rows.terms.interval, count := rows.count + 1);
      }

      ghost var unused := IdAboveAll(db.outbox);
      assert !HasId(db.outbox, unused);
      var id: Uuid :| !HasId(db.outbox, id);
      var now: Time := *;
      fails := MayFail(outage.Anywhere?);
      if fails { return Err(Failed); }
      var event := BidAccepted(bid, nextSequence, submittedAt, rows.close, extended, rows.count);
      var outbox := db.outbox + [OutboxRow(Stamp(id, now), event)];

      var answer := AntiSnipeResponse(nextSequence, true, extended, rows.close, rows.count);
      InsertOutcome(db, bid, submittedAt, Stamp(id, now), before, rows, extended);
      var ok := Commit(bid.auctionId, rows, outbox);
      if !ok { return Err(CommitFailed); }
      RowsTell(was, db, AntiSnipe, bid, submittedAt, answer);
      return Ok(answer);
    }

    method AppendBidIdempotentRowLock(bid: Bid) returns (r: Result<Response, LedgerError>)
      requires Valid()
      modifies this
      ensures Valid()
      ensures r.Ok? ==> Outcome(old(db), db, RowLock, bid, 0, r.value)
      ensures r.Ok? ==> RowsTold(old(db), db, bid, r.value)
      ensures r.Err? && r.error.Refused? ==>
                db == old(db) && RefusedBy(old(db), RowLock, bid, 0, r.error.refusal)
      ensures r != Err(SubmissionTimeRequired)
      ensures r == Err(Failed) ==> outage.Anywhere? && db == old(db)
      ensures r == Err(CommitFailed) ==>
                db == old(db) || exists answer :: Outcome(old(db), db, RowLock, bid, 0, answer)
      ensures r == Err(CommitFailed) && HoldsKey(BookOf(old(db)), bid) ==> db == old(db)
      ensures r == Err(CommitFailed) ==> !outage.Never?
      ensures outage.AfterCommit? ==>
                r.Err? && (r == Err(CommitFailed) ==>
                  exists answer :: Outcome(old(db), db, RowLock, bid, 0, answer))
    {
      hide RowsTold;
      ghost var was := db;
      var fails := MayFail(outage.Anywhere?);
      if fails { return Err(Failed); }
      if bid.auctionId !in db.auctions {
        return Err(Refused(UnknownAuction));
      }
      var rows := db.auctions[bid.auctionId];
      ghost var before := rows;
      assert WellFormed(before);
      if rows.counter.None? {
        rows := rows.(counter := Some(0));
      }
      fails := MayFail(outage.Anywhere?);
      if fails { return Err(Failed); }
      var lastSequence := rows.counter.value;
      var nextSequence := lastSequence + 1;

      fails := MayFail(outage.Anywhere?);
      if fails { return Err(Failed); }
      if bid.amount <= 0 {
        return Err(Refused(CheckViolated));
      }
      var conflict := SelectSequence(rows.bids, bid.key);
      if conflict.None? {
        rows := rows.(bids := rows.bids + [BidRow(nextSequence, bid)]);
        fails := MayFail(outage.Anywhere?);
        if fails || rows.counter != Some(lastSequence) { return Err(Failed); }
        rows := rows.(counter := Some(nextSequence));
        InsertedRows(before, rows, bid);
        assert Outcome(db, Db(db.auctions[bid.auctionId := rows], db.outbox), RowLock, bid, 0,
                       RowLockResponse(nextSequence, true));
        var ok := Commit(bid.auctionId, rows, db.outbox);
        if !ok { return Err(CommitFailed); }
        RowsTell(was, db, RowLock, bid, 0, RowLockResponse(nextSequence, true));
        return Ok(RowLockResponse(nextSequence, true));
      } else {
        assert Outcome(db, db, RowLock, bid, 0, RowLockResponse(conflict.value, false));
        var heard := Heard();
        if !heard { return Err(CommitFailed); }
        RowsTell(db, db, RowLock, bid, 0, RowLockResponse(conflict.value, false));
        return Ok(RowLockResponse(conflict.value, false));
      }
    }
  }

  lemma RowsTell(before: Db, after: Db, path: Path, bid: Bid, at: Time, r: Response)
    requires TablesInv(before) && TablesInv(after) && Outcome(before, after, path, bid, at, r)
    ensures RowsTold(before, after, bid, r)
    ensures path.AntiSnipe? ==> EventTold(before.outbox, after.outbox, bid, at, r)
  {
    hide Append, DistinctKeys;
    var t, t' := before.auctions[bid.auctionId], after.auctions[bid.auctionId];
    assert WellFormed(t) && WellFormed(t');
    assert AuctionOf(t') == BookOf(after)[bid.auctionId];
    AppendExact(path, AuctionOf(t), bid, at);
    RowsSame(t.bids, t'.bids, bid, r.inserted);
    assert t'.bids[r.seqNo - 1].bid == BidsOf(t'.bids)[r.seqNo - 1];
    assert t'.bids[r.seqNo - 1] in t'.bids;
    assert forall i :: 0 <= i < |t.bids| ==> BidsOf(t.bids)[i].key == t.bids[i].bid.key;
  }

  /** Numbered rows are the same rows when they hold the same bids. */
  lemma RowsSame(rows: seq<BidRow>, rows': seq<BidRow>, bid: Bid, inserted: bool)
    requires Numbered(rows) && Numbered(rows')
    requires BidsOf(rows') == BidsOf(rows) + (if inserted then [bid] else [])
    ensures rows' == rows + (if inserted then [BidRow(|rows| + 1, bid)] else [])
  {
    forall i | 0 <= i < |rows'|
      ensures rows'[i] == (rows + (if inserted then [BidRow(|rows| + 1, bid)] else []))[i]
    {
      assert rows'[i].bid == BidsOf(rows')[i];
      if i < |rows| {
        assert rows[i].bid == BidsOf(rows)[i];
      }
    }
  }

  lemma KeyKnown(db: Db, bid: Bid)
    ensures HoldsKey(BookOf(db), bid) <==>
              bid.auctionId in db.auctions && HasKey(BidsOf(db.auctions[bid.auctionId].bids), bid.key)
  {
  }

  lemma ReplayOutcome(db: Db, bid: Bid, at: Time)
    requires bid.auctionId in db.auctions && WellFormed(db.auctions[bid.auctionId])
    requires HasKey(BidsOf(db.auctions[bid.auctionId].bids), bid.key)
    ensures var t := db.auctions[bid.auctionId];
            Outcome(db, db, AntiSnipe, bid, at,
                    AntiSnipeResponse(FoundSeqNo(t.bids, bid.key), false, false, t.close, t.count))
  {
  }

  lemma NoAuction(db: Db, bid: Bid, at: Time)
    requires bid.auctionId !in db.auctions
    ensures RefusedBy(db, AntiSnipe, bid, at, UnknownAuction)
  {
  }

  lemma Refusals(db: Db, bid: Bid, at: Time)
    requires bid.auctionId in db.auctions
    requires !HasKey(BidsOf(db.auctions[bid.auctionId].bids), bid.key)
    ensures at >= db.auctions[bid.auctionId].close ==> RefusedBy(db, AntiSnipe, bid, at, AtOrAfterClose)
    ensures at < db.auctions[bid.auctionId].close && bid.amount <= 0 ==>
              RefusedBy(db, AntiSnipe, bid, at, CheckViolated)
  {
  }

  /** What the statements have made of the rows is the atomic append. */
  lemma InsertOutcome(db: Db, bid: Bid, at: Time, stamp: Stamp, t: Tables, t': Tables, extended: bool)
    requires bid.auctionId in db.auctions && t == db.auctions[bid.auctionId] && WellFormed(t)
    requires !HasKey(BidsOf(t.bids), bid.key) && at < t.close && bid.amount > 0
    requires extended <==> t.close - t.terms.window <= at < t.close && t.count < t.terms.maxExtensions
    requires t' == Tables(t.terms, if extended then t.close + t.terms.interval else t.close,
                          if extended then t.count + 1 else t.count,
                          Some(|t.bids| + 1), t.bids + [BidRow(|t.bids| + 1, bid)])
    requires !HasId(db.outbox, stamp.id)
    ensures WellFormed(t')
    ensures var event := BidAccepted(bid, |t.bids| + 1, at, t'.close, extended, t'.count);
            Outcome(db, Db(db.auctions[bid.auctionId := t'], db.outbox + [OutboxRow(stamp, event)]),
                    AntiSnipe, bid, at,
                    AntiSnipeResponse(|t.bids| + 1, true, extended, t'.close, t'.count))
  {
    hide HasKey, HasId, Numbered, DistinctKeys;
    InsertedRows(t, t', bid);
  }
}
