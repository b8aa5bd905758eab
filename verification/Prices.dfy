/** The consumer with the price rule: its validation hook reads the committed ledger. */
module Prices {
  import opened Domain
  import opened Ledger
  import opened StreamId
  import opened StreamFields
  import opened Settlement
  import opened Validation
  import Transactions
  import Refinement
  import Snapshots

  datatype Pricing = Pricing(
    openingPrice: Int64,
    increment: Int64,
    registered: string -> bool)

  /** The last ledger amount, or the opening price. */
  function CurrentPrice(p: Pricing, bids: seq<Bid>): Int64 {
    if bids == [] then p.openingPrice else bids[|bids| - 1].amount
  }

  function AttemptOf(e: StreamEntry, at: Time): Attempt {
    Attempt(e.bid.auctionId, e.bid.bidderId, e.bid.amount, e.bid.idempotencyKey,
            e.bid.correlationId, e.id, at)
  }

  function SnapshotOf(p: Pricing, a: Auction, bidderId: string): Snapshot {
    Snapshot(true, Open, CurrentPrice(p, a.bids), p.increment, p.registered(bidderId), a.close)
  }

  predicate PassesRules(p: Pricing, a: Auction, e: StreamEntry) {
    && StreamEntryTime(e.id).Ok?
    && EvaluateBid(AttemptOf(e, StreamEntryTime(e.id).value), SnapshotOf(p, a, e.bid.bidderId)).accepted
  }

  /** The hook: the acceptance rules, with the time from the identifier and the price, increment
      and close time from the committed auction. */
  function Hook(p: Pricing, a: Uuid): (Book, StreamEntry) -> bool {
    (book: Book, e: StreamEntry) => a in book && PassesRules(p, book[a], e)
  }

  ghost predicate UsesHook(c: Config, p: Pricing, a: Uuid) {
    c.parseUuid(c.auctionId) == Some(a) && c.validate == Some(Hook(p, a))
  }

  lemma RulesMean(p: Pricing, a: Auction, e: StreamEntry)
    requires PassesRules(p, a, e)
    ensures StreamEntryTime(e.id).value < a.close
    ensures 0 <= CurrentPrice(p, a.bids) && 0 < p.increment
    ensures CurrentPrice(p, a.bids) + p.increment <= e.bid.amount
  {
    var s := SnapshotOf(p, a, e.bid.bidderId);
    var t := AttemptOf(e, StreamEntryTime(e.id).value);
    EvaluateBidExact(t, s);
    assert !Violates(t, s, BidAtOrAfterClose) && !Violates(t, s, InvalidCurrentPrice)
           && !Violates(t, s, InvalidIncrement);
  }

  /** What the hook asks of an entry, in the entry's own fields and the auction's own columns. */
  lemma PassesRulesExact(p: Pricing, a: Auction, e: StreamEntry)
    ensures var price := if a.bids == [] then p.openingPrice else a.bids[|a.bids| - 1].amount;
            PassesRules(p, a, e) <==>
              && e.bid.auctionId != "" && e.bid.bidderId != "" && e.bid.idempotencyKey != ""
              && StreamEntryTime(e.id).Ok? && StreamEntryTime(e.id).value < a.close
              && a.close != ZERO_TIME && p.registered(e.bid.bidderId)
              && 0 < p.increment && 0 <= price && price + p.increment <= MAX_INT64
              && price + p.increment <= e.bid.amount
  {
    var price := if a.bids == [] then p.openingPrice else a.bids[|a.bids| - 1].amount;
    if StreamEntryTime(e.id).Ok? {
      var at := StreamEntryTime(e.id).value;
      assert at >= 0;
      RulesSpelled(p, a, e, at);
    }
  }

  /** A rejection by the hook's rules tells of the entry, column by column. */
  lemma RejectionTells(p: Pricing, a: Auction, e: StreamEntry, at: Time)
    ensures var v := EvaluateBid(AttemptOf(e, at), SnapshotOf(p, a, e.bid.bidderId));
            v.rejection.Some? ==>
              var attempt := v.rejection.value.attempt;
              && attempt.auctionId == e.bid.auctionId && attempt.bidderId == e.bid.bidderId
              && attempt.amount == e.bid.amount && attempt.idempotencyKey == e.bid.idempotencyKey
              && attempt.correlationId == e.bid.correlationId && attempt.streamEntryId == e.id
              && attempt.submittedAt == at && v.rejection.value.snapshot.effectiveCloseTime == a.close
  {
    hide EvaluateBid;
    EvaluateBidExact(AttemptOf(e, at), SnapshotOf(p, a, e.bid.bidderId));
  }

  lemma RulesSpelled(p: Pricing, a: Auction, e: StreamEntry, at: Time)
    requires at >= 0
    ensures var price := CurrentPrice(p, a.bids);
            EvaluateBid(AttemptOf(e, at), SnapshotOf(p, a, e.bid.bidderId)).accepted <==>
              && e.bid.auctionId != "" && e.bid.bidderId != "" && e.bid.idempotencyKey != ""
              && at < a.close && a.close != ZERO_TIME && p.registered(e.bid.bidderId)
              && 0 < p.increment && 0 <= price && price + p.increment <= MAX_INT64
              && price + p.increment <= e.bid.amount
  {
    hide StreamEntryTime, Wrap64;
    NoWrap(SnapshotOf(p, a, e.bid.bidderId));
  }

  /** A message that the hook lets through is persisted: the authoritative transaction neither
      finds it late nor violates a constraint. */
  lemma ValidatedIsPersisted(c: Config, p: Pricing, a: Uuid, book: Book, m: Message)
    requires UsesHook(c, p, a) && Request(c, book, m).Some?
    ensures var (bid, at) := Request(c, book, m).value;
            bid.auctionId == a && Append(AntiSnipe, book[a], bid, at).1.Ok?
  {
    RulesMean(p, book[a], Parsed(m).value);
  }

  /** Validator stability: when the rules accepted an entry against any committed state of the run,
      no transaction for its time is refused as late at any later point. */
  lemma AcceptedIsNeverLate(states: seq<Transactions.Sys>, steps: seq<Transactions.Step>,
                            i: nat, j: nat, p: Pricing, e: StreamEntry)
    requires Transactions.Run(states, steps) && Transactions.Initial(states[0])
    requires i <= j < |steps| && steps[j].Statement?
    requires steps[j].tid in states[j].txs
    requires var tx := states[j].txs[steps[j].tid];
             && tx.bid.auctionId in states[i].db.auctions && StreamEntryTime(e.id) == Ok(tx.at)
             && PassesRules(p, Refinement.AuctionOf(states[i].db.auctions[tx.bid.auctionId]), e)
    ensures Transactions.Execute(states[j].db, states[j].txs[steps[j].tid], steps[j].stamp)
              != Transactions.Refuse(AtOrAfterClose)
  {
    hide Transactions.Execute, Transactions.Initial, PassesRules, StreamEntryTime;
    var tx := states[j].txs[steps[j].tid];
    RulesMean(p, Refinement.AuctionOf(states[i].db.auctions[tx.bid.auctionId]), e);
    if Transactions.Execute(states[j].db, tx, steps[j].stamp) == Transactions.Refuse(AtOrAfterClose) {
      Snapshots.LateAgainstEverySnapshot(states, steps, i, j);
    }
  }

  /** Each amount is at least one increment above the one before it. */
  predicate Ladder(p: Pricing, bids: seq<Bid>) {
    forall k :: 0 <= k < |bids| ==>
      && 0 < p.increment
      && 0 <= CurrentPrice(p, bids[..k])
      && CurrentPrice(p, bids[..k]) + p.increment <= bids[k].amount
  }

  lemma LadderGrows(p: Pricing, bids: seq<Bid>, bid: Bid)
    requires Ladder(p, bids) && 0 < p.increment && 0 <= CurrentPrice(p, bids)
    requires CurrentPrice(p, bids) + p.increment <= bid.amount
    ensures Ladder(p, bids + [bid])
  {
    forall k | 0 <= k < |bids + [bid]| ensures (bids + [bid])[..k] == bids[..k] {
    }
    assert bids[..|bids|] == bids;
  }

  function WithAmount(e: StreamEntry, amount: Int64): StreamEntry {
    e.(bid := e.bid.(amount := amount))
  }

  /** Whatever amount the rules let through on the snapshot keeps the prices rising now. */
  ghost predicate VerdictStands(p: Pricing, snapshot: Auction, now: Auction, e: StreamEntry) {
    forall b: Bid :: PassesRules(p, snapshot, WithAmount(e, b.amount)) ==> Ladder(p, now.bids + [b])
  }

  /** The rules read the amount only against the minimum. */
  lemma AmountPasses(p: Pricing, a: Auction, e: StreamEntry, amount: Int64)
    requires PassesRules(p, a, e) && CurrentPrice(p, a.bids) + p.increment <= amount
    ensures PassesRules(p, a, WithAmount(e, amount))
  {
    hide StreamEntryTime;
    RulesMean(p, a, e);
  }

  /** When several consumers judge at once, a verdict may be given on a price that has moved since. It
      guards the ledger exactly when the price has not gone up: then every amount that the rules let
      through on the snapshot keeps the prices rising, and otherwise the least such amount does not. */
  lemma StaleVerdict(p: Pricing, snapshot: Auction, now: Auction, e: StreamEntry)
    requires PassesRules(p, snapshot, e)
    requires Ladder(p, now.bids) && 0 <= CurrentPrice(p, now.bids)
    ensures VerdictStands(p, snapshot, now, e) <==>
              CurrentPrice(p, now.bids) <= CurrentPrice(p, snapshot.bids)
  {
    hide PassesRules;
    RulesMean(p, snapshot, e);
    if CurrentPrice(p, now.bids) <= CurrentPrice(p, snapshot.bids) {
      forall b: Bid | PassesRules(p, snapshot, WithAmount(e, b.amount))
        ensures Ladder(p, now.bids + [b])
      {
        RulesMean(p, snapshot, WithAmount(e, b.amount));
        LadderGrows(p, now.bids, b);
      }
    }
    if VerdictStands(p, snapshot, now, e) {
      var least := CurrentPrice(p, snapshot.bids) + p.increment;
      var b := Bid(0, 0, least, 0, "", "");
      AmountPasses(p, snapshot, e, least);
      assert Ladder(p, now.bids + [b]);
      LadderLast(p, now.bids, b);
    }
  }

  lemma LadderLast(p: Pricing, bids: seq<Bid>, bid: Bid)
    requires Ladder(p, bids + [bid])
    ensures 0 < p.increment && 0 <= CurrentPrice(p, bids)
    ensures CurrentPrice(p, bids) + p.increment <= bid.amount
  {
    assert (bids + [bid])[..|bids|] == bids && (bids + [bid])[|bids|] == bid;
  }

  lemma {:induction false} SettledLadder(c: Config, p: Pricing, a: Uuid, book: Book, ms: seq<Message>)
    requires UsesHook(c, p, a) && a in book && book[a].bids == []
    ensures a in SettleAll(c, book, ms) && Ladder(p, SettleAll(c, book, ms)[a].bids)
  {
    if ms != [] {
      var before, m := SettleAll(c, book, ms[..|ms| - 1]), ms[|ms| - 1];
      SettledLadder(c, p, a, book, ms[..|ms| - 1]);
      LadderStep(c, p, a, before, m);
    }
  }

  lemma LadderStep(c: Config, p: Pricing, a: Uuid, book: Book, m: Message)
    requires UsesHook(c, p, a) && a in book && Ladder(p, book[a].bids)
    ensures a in Settle(c, book, m) && Ladder(p, Settle(c, book, m)[a].bids)
  {
    SettleAdds(c, book, m, a);
    if Acceptable(c, book, m) {
      RulesMean(p, book[a], Parsed(m).value);
      LadderGrows(p, book[a].bids, BidAt(c, m));
    }
  }

  lemma {:induction false} LadderHeight(p: Pricing, bids: seq<Bid>, k: nat)
    requires Ladder(p, bids) && k < |bids|
    ensures bids[k].amount >= p.openingPrice + (k + 1) * p.increment
  {
    if k == 0 {
      assert bids[..0] == [];
    } else {
      LadderHeight(p, bids, k - 1);
      assert CurrentPrice(p, bids[..k]) == bids[k - 1].amount;
      assert (k + 1) * p.increment == k * p.increment + p.increment;
    }
  }

  lemma {:induction false} LadderRises(p: Pricing, bids: seq<Bid>, j: nat, k: nat)
    requires Ladder(p, bids) && j < k < |bids|
    ensures bids[j].amount < bids[k].amount
  {
    assert CurrentPrice(p, bids[..k]) == bids[k - 1].amount;
    if j < k - 1 {
      LadderRises(p, bids, j, k - 1);
    }
  }

  /** The whole ladder: every amount's lower bound, the strict rise, and the length that 64 bits
      allow. */
  ghost predicate PricesClimb(p: Pricing, bids: seq<Bid>) {
    && (forall k :: 0 <= k < |bids| ==> p.openingPrice + (k + 1) * p.increment <= bids[k].amount)
    && (forall j, k :: 0 <= j < k < |bids| ==> bids[j].amount < bids[k].amount)
    && (bids != [] ==> |bids| * p.increment <= MAX_INT64 - p.openingPrice)
  }

  lemma LadderSummary(p: Pricing, bids: seq<Bid>)
    requires Ladder(p, bids)
    ensures PricesClimb(p, bids)
  {
    forall k | 0 <= k < |bids|
      ensures p.openingPrice + (k + 1) * p.increment <= bids[k].amount
    {
      LadderHeight(p, bids, k);
    }
    forall j, k | 0 <= j < k < |bids| ensures bids[j].amount < bids[k].amount {
      LadderRises(p, bids, j, k);
    }
    if bids != [] {
      LadderHeight(p, bids, |bids| - 1);
      assert |bids| - 1 + 1 == |bids|;
    }
  }

  /** Price growth: the n-th amount is at least n increments above the opening price, amounts rise
      strictly, so the last bid alone is the highest, and the ledger's length is bounded by the
      increments that fit into 64 bits. */
  lemma PricesGrow(c: Config, p: Pricing, a: Uuid, book: Book, ms: seq<Message>)
    requires UsesHook(c, p, a) && a in book && book[a].bids == []
    ensures a in SettleAll(c, book, ms) && PricesClimb(p, SettleAll(c, book, ms)[a].bids)
    ensures var bids := SettleAll(c, book, ms)[a].bids;
            && (forall k :: 0 <= k < |bids| ==> p.openingPrice + (k + 1) * p.increment <= bids[k].amount)
            && (forall j, k :: 0 <= j < k < |bids| ==> bids[j].amount < bids[k].amount)
            && (bids != [] ==> |bids| * p.increment <= MAX_INT64 - p.openingPrice)
  {
    hide SettleAll, Ladder;
    SettledLadder(c, p, a, book, ms);
    LadderSummary(p, SettleAll(c, book, ms)[a].bids);
  }

  lemma LadderRefuses(p: Pricing, a: Auction, j: nat, e: StreamEntry)
    requires Ladder(p, a.bids) && j < |a.bids| && a.bids[j].amount == e.bid.amount
    ensures !PassesRules(p, a, e)
  {
    hide EvaluateBid, StreamEntryTime;
    if j < |a.bids| - 1 {
      LadderRises(p, a.bids, j, |a.bids| - 1);
    }
    if PassesRules(p, a, e) {
      RulesMean(p, a, e);
    }
  }

  /** With this hook a committed message, delivered again at any later point, is always refused
      by validation: the price has already reached its amount. A rejection event is then emitted
      for a bid that is in the ledger, and the transaction's lookup of its key is not reached. */
  lemma CommittedIsRefusedOnReplay(
      c: Config, p: Pricing, a: Uuid, book: Book, ms: seq<Message>, i: nat)
    requires UsesHook(c, p, a) && a in book && book[a].bids == []
    requires i in Kept(c, book, ms)
    ensures a in SettleAll(c, book, ms) && BidAt(c, ms[i]) in SettleAll(c, book, ms)[a].bids
    ensures !Accepts(c, SettleAll(c, book, ms), Parsed(ms[i]).value)
  {
    hide Settle, Ladder, PassesRules, Acceptable, Kept, SettleAll, Parsed;
    KeepsFirstAcceptable(c, book, ms, a);
    SettledLadder(c, p, a, book, ms);
    var now := SettleAll(c, book, ms)[a];
    var ks := Kept(c, book, ms);
    var j :| 0 <= j < |ks| && ks[j] == i;
    assert now.bids[j] == BidAt(c, ms[i]);
    LadderRefuses(p, now, j, Parsed(ms[i]).value);
  }
}
