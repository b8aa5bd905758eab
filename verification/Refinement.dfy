/** Every interleaving of append transactions refines the atomic ledger.

    The argument is the two-phase-locking one: what a transaction has read under a lock
    is still what is committed when it writes. `TxOk` says so statement by statement. */
module Refinement {
  import opened Domain
  import opened Ledger
  import opened Transactions

  function AuctionOf(t: Tables): Auction {
    Auction(t.terms, t.close, t.count, BidsOf(t.bids))
  }

  /** The abstraction: forget the counters and the stored sequence numbers. */
  function BookOf(db: Db): (book: Book)
    ensures book.Keys == db.auctions.Keys
  {
    map a | a in db.auctions :: AuctionOf(db.auctions[a])
  }

  predicate HoldsAuction(tx: Tx) {
    tx.path.AntiSnipe? && !tx.pc.LockAuction?
  }

  predicate PastCounterLock(pc: Pc) {
    pc.InsertBid? || pc.CheckBid? || pc.FindExisting? || pc.AdvanceCounter? || pc.Extend? || pc.InsertEvent?
    || pc.CommitDuplicate? || pc.CommitInsert?
  }

  predicate HoldsCounter(tx: Tx) {
    PastCounterLock(tx.pc)
    || ((tx.pc.CheckCounter? || tx.pc.LockCounter?) && tx.writes.counter.Some?)
  }

  /** Between the insert of the bid and the commit. */
  predicate HasInserted(pc: Pc) {
    pc.CheckBid? || pc.AdvanceCounter? || pc.Extend? || pc.InsertEvent? || pc.CommitInsert?
  }

  predicate HasAdvanced(pc: Pc) {
    pc.Extend? || pc.InsertEvent? || pc.CommitInsert?
  }

  /** Only the anti-snipe path sends these. */
  predicate AntiSnipeOnly(pc: Pc) {
    pc.LockAuction? || pc.FindKey? || pc.Extend? || pc.InsertEvent? || pc.CommitReplay?
  }

  /** Between a lookup that found nothing and the insert. */
  predicate LooksForward(pc: Pc) {
    pc.EnsureCounter? || pc.CheckCounter? || pc.LockCounter? || pc.InsertBid?
  }

  predicate Started(tx: Tx) {
    !(tx.pc == Begun(tx.path, tx.bid, tx.at).pc)
  }

  /** Only the row-lock path gets here: under the auction lock a lookup stays true. */
  predicate RowLockOnly(pc: Pc) {
    pc.FindExisting? || pc.CommitDuplicate?
  }

  /** What was read of the auction row is current. */
  predicate AuctionReadOk(t: Tables, tx: Tx) {
    && tx.close == t.close && tx.count == t.count
    && (!tx.pc.FindKey? && !tx.pc.CommitReplay? ==> tx.at < t.close)
    && (LooksForward(tx.pc) ==> !HasKey(BidsOf(t.bids), tx.bid.key))
  }

  /** What was read of the counter row is current, and the private counter follows it. */
  predicate CounterReadOk(t: Tables, tx: Tx) {
    && tx.lastSeq == |t.bids|
    && tx.writes.counter ==
         (if HasAdvanced(tx.pc) then Some(tx.lastSeq + 1)
          else if t.counter.None? then Some(0) else None)
  }

  predicate BidWriteOk(t: Tables, tx: Tx) {
    tx.writes.bid ==
      if HasInserted(tx.pc) then Some(BidRow(tx.lastSeq + 1, tx.bid)) else None
  }

  predicate ExtensionWriteOk(t: Tables, tx: Tx) {
    tx.writes.extension ==
      if (tx.pc.InsertEvent? || tx.pc.CommitInsert?) && tx.path.AntiSnipe?
         && Extends(AuctionOf(t), tx.at)
      then Some((t.close + t.terms.interval, t.count + 1))
      else None
  }

  predicate EventWriteOk(tx: Tx) {
    if tx.pc.CommitInsert? && tx.path.AntiSnipe? then
      && tx.writes.event.Some?
      && tx.writes.bid.Some?
      && tx.writes.event.value.event ==
           BidAccepted(tx.bid, tx.writes.bid.value.seqNo, tx.at,
                       NewClose(tx), tx.writes.extension.Some?, NewCount(tx))
    else tx.writes.event.None?
  }

  predicate FoundOk(t: Tables, tx: Tx) {
    HasKey(BidsOf(t.bids), tx.bid.key) && tx.found == Find(BidsOf(t.bids), tx.bid.key) + 1
  }

  /** What holds of a transaction in flight, given its auction's committed rows. */
  predicate TxOk(t: Tables, tx: Tx) {
    && (HoldsAuction(tx) ==> AuctionReadOk(t, tx))
    && (PastCounterLock(tx.pc) ==> CounterReadOk(t, tx))
    && (!HoldsCounter(tx) ==> tx.writes.counter.None?)
    && (tx.pc.CheckCounter? ==> t.counter.None?)
    && (tx.pc.CheckCounter? || tx.pc.LockCounter? ==>
          tx.writes.counter == if t.counter.None? then Some(0) else None)
    && BidWriteOk(t, tx)
    && ExtensionWriteOk(t, tx)
    && EventWriteOk(tx)
    && (tx.shares ==> HoldsCounter(tx))
    && (HasInserted(tx.pc) && !tx.pc.CheckBid? ==> tx.shares)
    && (HasInserted(tx.pc) ==> !HasKey(BidsOf(t.bids), tx.bid.key) && tx.bid.amount > 0)
    && (tx.pc.FindExisting? ==> HasKey(BidsOf(t.bids), tx.bid.key) && tx.bid.amount > 0)
    && (tx.pc.CommitDuplicate? ==> tx.bid.amount > 0)
    && (tx.pc.CommitDuplicate? || tx.pc.CommitReplay? ==> FoundOk(t, tx))
  }

  predicate TxInv(db: Db, tx: Tx) {
    && (tx.path.RowLock? ==> !AntiSnipeOnly(tx.pc))
    && (tx.path.AntiSnipe? ==> !RowLockOnly(tx.pc))
    && (Started(tx) ==> tx.bid.auctionId in db.auctions)
    && (!Started(tx) ==> tx.writes == NO_WRITES && !tx.shares)
    && (tx.bid.auctionId in db.auctions ==> TxOk(db.auctions[tx.bid.auctionId], tx))
  }

  /** The lock tables name exactly the transactions that hold the rows. */
  predicate LocksInv(s: Sys) {
    AuctionLocksInv(s) && CounterLocksInv(s)
  }

  predicate AuctionLocksInv(s: Sys) {
    && (forall a :: a in s.auctionLocks ==>
          && s.auctionLocks[a] in s.txs
          && s.txs[s.auctionLocks[a]].bid.auctionId == a
          && HoldsAuction(s.txs[s.auctionLocks[a]]))
    && (forall t :: t in s.txs && HoldsAuction(s.txs[t]) ==>
          s.txs[t].bid.auctionId in s.auctionLocks && s.auctionLocks[s.txs[t].bid.auctionId] == t)
  }

  predicate CounterLocksInv(s: Sys) {
    && (forall a :: a in s.counterLocks ==>
          && s.counterLocks[a] in s.txs
          && s.txs[s.counterLocks[a]].bid.auctionId == a
          && HoldsCounter(s.txs[s.counterLocks[a]]))
    && (forall t :: t in s.txs && HoldsCounter(s.txs[t]) ==>
          s.txs[t].bid.auctionId in s.counterLocks && s.counterLocks[s.txs[t].bid.auctionId] == t)
  }

  /** While a transaction has an auction row `FOR UPDATE`, no other one shares it. */
  predicate SharesInv(s: Sys) {
    forall t, u :: (t in s.txs && u in s.txs && t != u && HoldsAuction(s.txs[t])
                    && s.txs[u].bid.auctionId == s.txs[t].bid.auctionId) ==> !s.txs[u].shares
  }

  predicate TablesInv(db: Db) {
    forall a :: a in db.auctions ==> WellFormed(db.auctions[a])
  }

  predicate TxsInv(s: Sys) {
    forall t :: t in s.txs ==> TxInv(s.db, s.txs[t])
  }

  predicate Inv(s: Sys) {
    TablesInv(s.db) && LocksInv(s) && SharesInv(s) && TxsInv(s)
  }

  // ---- One transaction ----

  lemma FindAppend(bids: seq<Bid>, more: seq<Bid>, key: Uuid)
    requires HasKey(bids, key)
    ensures HasKey(bids + more, key) && Find(bids + more, key) == Find(bids, key)
  {
    var i := Find(bids, key);
    assert (bids + more)[i].key == key;
    var j := Find(bids + more, key);
    assert j <= i;
    assert bids[j] == (bids + more)[j];
  }

  /** The unexpected branches of both methods cannot be taken: the counter row is there to
      lock, the update that advances it touches one row, and a conflicting bid can be read. */
  lemma NothingUnexpected(db: Db, tx: Tx, stamp: Stamp)
    requires TablesInv(db) && TxInv(db, tx)
    ensures Execute(db, tx, stamp) != Broken
  {
    if tx.bid.auctionId in db.auctions {
      var t := db.auctions[tx.bid.auctionId];
      assert WellFormed(t) && TxOk(t, tx);
    }
  }

  lemma LockStatementKeepsTx(db: Db, tx: Tx, stamp: Stamp)
    requires TablesInv(db) && TxInv(db, tx) && Execute(db, tx, stamp).Continue?
    requires tx.pc.LockAuction? || tx.pc.EnsureCounter? || tx.pc.CheckCounter? || tx.pc.LockCounter?
    ensures TxInv(db, Execute(db, tx, stamp).tx)
  {
    assert WellFormed(db.auctions[tx.bid.auctionId]);
  }

  lemma FoundIsPlace(t: Tables, key: Uuid)
    requires WellFormed(t) && HasKey(BidsOf(t.bids), key)
    ensures FoundSeqNo(t.bids, key) == Find(BidsOf(t.bids), key) + 1
  {
  }

  /** The two lookups. */
  lemma FindStatementKeepsTx(db: Db, tx: Tx, stamp: Stamp)
    requires TablesInv(db) && TxInv(db, tx) && Execute(db, tx, stamp).Continue?
    requires tx.pc.FindKey? || tx.pc.FindExisting?
    ensures TxInv(db, Execute(db, tx, stamp).tx)
  {
    hide WellFormed, HasKey, Find;
    var t := db.auctions[tx.bid.auctionId];
    assert WellFormed(t) && TxOk(t, tx);
    if HasKey(BidsOf(t.bids), tx.bid.key) {
      FoundIsPlace(t, tx.bid.key);
    }
  }

  lemma InsertStatementKeepsTx(db: Db, tx: Tx, stamp: Stamp)
    requires TablesInv(db) && TxInv(db, tx) && Execute(db, tx, stamp).Continue?
    requires tx.pc.InsertBid?
    ensures TxInv(db, Execute(db, tx, stamp).tx)
  {
    hide WellFormed, HasKey, Find, FoundOk;
    assert TxOk(db.auctions[tx.bid.auctionId], tx);
  }

  lemma WriteStatementKeepsTx(db: Db, tx: Tx, stamp: Stamp)
    requires TablesInv(db) && TxInv(db, tx) && Execute(db, tx, stamp).Continue?
    requires HasInserted(tx.pc)
    ensures TxInv(db, Execute(db, tx, stamp).tx)
  {
    hide WellFormed, HasKey, Find, FoundOk, BidsOf;
    assert TxOk(db.auctions[tx.bid.auctionId], tx);
  }

  lemma StatementKeepsTx(db: Db, tx: Tx, stamp: Stamp)
    requires TablesInv(db) && TxInv(db, tx) && Execute(db, tx, stamp).Continue?
    ensures TxInv(db, Execute(db, tx, stamp).tx)
  {
    if tx.pc.LockAuction? || tx.pc.EnsureCounter? || tx.pc.CheckCounter? || tx.pc.LockCounter? {
      LockStatementKeepsTx(db, tx, stamp);
    } else if HasInserted(tx.pc) {
      WriteStatementKeepsTx(db, tx, stamp);
    } else if tx.pc.InsertBid? {
      InsertStatementKeepsTx(db, tx, stamp);
    } else {
      FindStatementKeepsTx(db, tx, stamp);
    }
  }

  /** What a commit installs, over the rows committed by then, is what the atomic append
      makes of them, and the caller is told the same. */
  lemma CommitIsAppend(db: Db, tx: Tx, stamp: Stamp)
    requires TablesInv(db) && TxInv(db, tx) && Execute(db, tx, stamp).Commit?
    ensures var t := db.auctions[tx.bid.auctionId];
            && Append(tx.path, AuctionOf(t), tx.bid, tx.at)
                 == (AuctionOf(Install(t, tx.writes)), Ok(ResponseOf(tx)))
            && WellFormed(Install(t, tx.writes))
  {
    var t := db.auctions[tx.bid.auctionId];
    assert WellFormed(t) && TxOk(t, tx);
    var t' := Install(t, tx.writes);
    if tx.pc.CommitInsert? {
      assert BidsOf(t'.bids) == BidsOf(t.bids) + [tx.bid];
      forall i | 0 <= i < |t.bids| ensures BidsOf(t.bids)[i].key != tx.bid.key {
      }
    } else {
      assert t' == t;
    }
  }

  // ---- Transactions beside each other ----

  /** A commit of `tx` leaves everything another transaction relies on as it was, because
      what that one relies on, it has locked. */
  lemma CommitSparesOthers(t: Tables, tx: Tx, other: Tx)
    requires WellFormed(t) && TxOk(t, tx) && TxOk(t, other)
    requires tx.path.RowLock? ==> !AntiSnipeOnly(tx.pc)
    requires tx.pc.CommitReplay? || tx.pc.CommitDuplicate? || tx.pc.CommitInsert?
    requires !(HoldsAuction(tx) && HoldsAuction(other)) && !(HoldsAuction(other) && tx.shares)
    requires !(HoldsCounter(tx) && HoldsCounter(other))
    ensures TxOk(Install(t, tx.writes), other)
  {
    var t' := Install(t, tx.writes);
    if tx.pc.CommitInsert? {
      assert BidsOf(t'.bids) == BidsOf(t.bids) + [tx.bid];
      if HasKey(BidsOf(t.bids), other.bid.key) {
        FindAppend(BidsOf(t.bids), [tx.bid], other.bid.key);
      }
    } else {
      assert t' == t;
    }
  }

  lemma EndKeepsLocks(s: Sys, tid: nat)
    requires LocksInv(s) && tid in s.txs
    ensures LocksInv(Ended(s, tid))
  {
  }

  /** A transaction moves on, taking the lock that it now holds and that nobody else had. */
  lemma TakeAuctionLock(s: Sys, tid: nat, tx: Tx, s': Sys)
    requires AuctionLocksInv(s) && tid in s.txs
    requires tx.bid == s.txs[tid].bid && (HoldsAuction(s.txs[tid]) ==> HoldsAuction(tx))
    requires HoldsAuction(tx) && !HoldsAuction(s.txs[tid]) ==>
               tx.bid.auctionId !in s.auctionLocks || s.auctionLocks[tx.bid.auctionId] == tid
    requires s'.txs == s.txs[tid := tx]
    requires s'.auctionLocks ==
      if HoldsAuction(tx) then s.auctionLocks[tx.bid.auctionId := tid] else s.auctionLocks
    ensures AuctionLocksInv(s')
  {
    hide HoldsAuction;
  }

  lemma TakeCounterLock(s: Sys, tid: nat, tx: Tx, s': Sys)
    requires CounterLocksInv(s) && tid in s.txs
    requires tx.bid == s.txs[tid].bid && (HoldsCounter(s.txs[tid]) ==> HoldsCounter(tx))
    requires HoldsCounter(tx) && !HoldsCounter(s.txs[tid]) ==> tx.bid.auctionId !in s.counterLocks
    requires s'.txs == s.txs[tid := tx]
    requires s'.counterLocks ==
      if HoldsCounter(tx) then s.counterLocks[tx.bid.auctionId := tid] else s.counterLocks
    ensures CounterLocksInv(s')
  {
    hide HoldsCounter;
  }

  /** A statement that is not blocked finds the row it wants to lock free. */
  lemma WantedRowsFree(s: Sys, tid: nat)
    requires LocksInv(s) && tid in s.txs && !Blocked(s, tid)
    ensures var tx := s.txs[tid];
            var a := tx.bid.auctionId;
            && (tx.pc.LockAuction? || tx.pc.CheckCounter? || tx.pc.CheckBid? ==>
                  a !in s.auctionLocks || s.auctionLocks[a] == tid)
            && (tx.pc.LockCounter? && tx.writes.counter.None? ==> a !in s.counterLocks)
            && (tx.pc.EnsureCounter? && a in s.db.auctions && s.db.auctions[a].counter.None? ==>
                  a !in s.counterLocks)
  {
    var a := s.txs[tid].bid.auctionId;
    if a in s.auctionLocks {
      assert !WaitsFor(s, tid, s.auctionLocks[a]);
    }
    if a in s.counterLocks {
      assert !WaitsFor(s, tid, s.counterLocks[a]);
    }
  }

  /** The locks that a statement takes are those that its transaction then holds. */
  lemma StatementLocks(db: Db, tx: Tx, stamp: Stamp)
    requires TablesInv(db) && TxInv(db, tx) && Execute(db, tx, stamp).Continue?
    ensures var tx' := Execute(db, tx, stamp).tx;
            && tx'.bid == tx.bid
            && (HoldsAuction(tx') <==> HoldsAuction(tx) || tx.pc.LockAuction?)
            && (HoldsCounter(tx') <==> HoldsCounter(tx) || tx.pc.LockCounter?
                                       || (tx.pc.EnsureCounter? && tx'.writes.counter.Some?))
            && (tx.pc.EnsureCounter? && tx'.writes.counter.Some? ==>
                  db.auctions[tx.bid.auctionId].counter.None?)
            && (tx'.shares <==> tx.shares || tx.pc.CheckCounter? || tx.pc.CheckBid?)
  {
    assert TxOk(db.auctions[tx.bid.auctionId], tx);
  }

  lemma StatementKeepsLocks(s: Sys, tid: nat, stamp: Stamp)
    requires TablesInv(s.db) && LocksInv(s) && Enabled(s, Statement(tid, stamp))
    requires TxInv(s.db, s.txs[tid])
    requires Execute(s.db, s.txs[tid], stamp).Continue?
    ensures LocksInv(Next(s, Statement(tid, stamp)))
  {
    StatementLocks(s.db, s.txs[tid], stamp);
    WantedRowsFree(s, tid);
    TakeAuctionLock(s, tid, Execute(s.db, s.txs[tid], stamp).tx, Next(s, Statement(tid, stamp)));
    TakeCounterLock(s, tid, Execute(s.db, s.txs[tid], stamp).tx, Next(s, Statement(tid, stamp)));
  }

  /** The auction row is shared only while nobody else has it, and locked only while nobody else
      shares it. */
  lemma StatementKeepsShares(s: Sys, tid: nat, tx: Tx)
    requires LocksInv(s) && SharesInv(s) && tid in s.txs && !Blocked(s, tid)
    requires tx.bid == s.txs[tid].bid
    requires HoldsAuction(tx) <==> HoldsAuction(s.txs[tid]) || s.txs[tid].pc.LockAuction?
    requires tx.shares <==> s.txs[tid].shares || s.txs[tid].pc.CheckCounter? || s.txs[tid].pc.CheckBid?
    ensures SharesInv(s.(txs := s.txs[tid := tx]))
  {
    hide LocksInv;
    var was := s.txs[tid];
    forall u | u in s.txs && u != tid && s.txs[u].bid.auctionId == tx.bid.auctionId
      ensures !(HoldsAuction(tx) && s.txs[u].shares) && !(HoldsAuction(s.txs[u]) && tx.shares)
    {
      assert !WaitsFor(s, tid, u);
      HolderHasLock(s, u);
    }
  }

  lemma HolderHasLock(s: Sys, t: nat)
    requires LocksInv(s) && t in s.txs
    ensures HoldsAuction(s.txs[t]) ==>
              s.txs[t].bid.auctionId in s.auctionLocks && s.auctionLocks[s.txs[t].bid.auctionId] == t
  {
  }

  lemma BegunTx(db: Db, path: Path, bid: Bid, at: Time)
    ensures TxInv(db, Begun(path, bid, at))
    ensures !HoldsAuction(Begun(path, bid, at)) && !HoldsCounter(Begun(path, bid, at))
    ensures !Begun(path, bid, at).shares
  {
  }

  lemma BeginKeepsLocks(s: Sys, tid: nat, tx: Tx)
    requires LocksInv(s) && SharesInv(s) && tid !in s.txs
    requires !HoldsAuction(tx) && !HoldsCounter(tx) && !tx.shares
    ensures LocksInv(s.(txs := s.txs[tid := tx])) && SharesInv(s.(txs := s.txs[tid := tx]))
  {
    hide HoldsAuction, HoldsCounter;
  }

  lemma BeginKeepsInv(s: Sys, step: Step)
    requires Inv(s) && step.Begin? && Enabled(s, step)
    ensures Inv(Next(s, step))
  {
    hide TxInv, WellFormed, LocksInv, SharesInv, Begun;
    BegunTx(s.db, step.path, step.bid, step.at);
    BeginKeepsLocks(s, step.tid, Begun(step.path, step.bid, step.at));
  }

  lemma CommitKeepsTx(s: Sys, tid: nat, u: nat)
    requires Inv(s) && tid in s.txs && u in s.txs && u != tid
    requires s.txs[tid].bid.auctionId in s.db.auctions
    requires s.txs[tid].pc.CommitReplay? || s.txs[tid].pc.CommitDuplicate? || s.txs[tid].pc.CommitInsert?
    ensures TxInv(Committed(s.db, s.txs[tid]), s.txs[u])
  {
    hide TxOk, WellFormed, Install;
    var tx := s.txs[tid];
    assert TxInv(s.db, tx) && TxInv(s.db, s.txs[u]);
    if s.txs[u].bid.auctionId == tx.bid.auctionId {
      CommitSparesOthers(s.db.auctions[tx.bid.auctionId], tx, s.txs[u]);
    }
  }

  lemma CommitKeepsInv(s: Sys, tid: nat, stamp: Stamp, log: seq<Entry>)
    requires Inv(s) && tid in s.txs
    requires Execute(s.db, s.txs[tid], stamp).Commit?
    ensures Inv(Ended(s, tid).(db := Committed(s.db, s.txs[tid]), log := log))
  {
    hide TxInv, WellFormed, Append, AuctionOf, Install, HoldsAuction, HoldsCounter;
    var tx := s.txs[tid];
    assert TxInv(s.db, tx);
    CommitIsAppend(s.db, tx, stamp);
    EndKeepsLocks(s, tid);
    forall u | u in s.txs && u != tid ensures TxInv(Committed(s.db, tx), s.txs[u]) {
      CommitKeepsTx(s, tid, u);
    }
  }

  lemma EndKeepsInv(s: Sys, tid: nat, log: seq<Entry>)
    requires Inv(s) && tid in s.txs
    ensures Inv(Ended(s, tid).(log := log))
  {
    hide TxInv, WellFormed, HoldsAuction, HoldsCounter;
    EndKeepsLocks(s, tid);
  }

  lemma ContinueKeepsInv(s: Sys, tid: nat, stamp: Stamp)
    requires Inv(s) && Enabled(s, Statement(tid, stamp))
    requires Execute(s.db, s.txs[tid], stamp).Continue?
    ensures Inv(Next(s, Statement(tid, stamp)))
  {
    hide TxOk, WellFormed, Execute, LocksInv;
    assert TxInv(s.db, s.txs[tid]);
    StatementKeepsTx(s.db, s.txs[tid], stamp);
    StatementLocks(s.db, s.txs[tid], stamp);
    StatementKeepsLocks(s, tid, stamp);
    StatementKeepsShares(s, tid, Execute(s.db, s.txs[tid], stamp).tx);
  }

  lemma StepKeepsInv(s: Sys, step: Step)
    requires Inv(s) && Enabled(s, step)
    ensures Inv(Next(s, step))
  {
    hide Inv, Committed, EntryOf;
    var log := Next(s, step).log;
    match step
    case Begin(_, _, _, _) =>
      BeginKeepsInv(s, step);
    case Rollback(tid) =>
      EndKeepsInv(s, tid, log);
    case Statement(tid, stamp) =>
      match Execute(s.db, s.txs[tid], stamp)
      case Continue(_) =>
        ContinueKeepsInv(s, tid, stamp);
      case Refuse(_) =>
        EndKeepsInv(s, tid, log);
      case Broken =>
        EndKeepsInv(s, tid, log);
      case Commit =>
        CommitHasAuction(s, tid);
        CommitKeepsInv(s, tid, stamp, log);
  }

  lemma CommitHasAuction(s: Sys, tid: nat)
    requires Inv(s) && tid in s.txs
    ensures Started(s.txs[tid]) ==> s.txs[tid].bid.auctionId in s.db.auctions
  {
    assert TxInv(s.db, s.txs[tid]);
  }

  // ---- Refinement ----

  /** A logged call agrees with the atomic append made at the same place in the history.
      Without an auction to append to, a call is refused. */
  predicate Agrees(book: Book, e: Entry) {
    var a := e.bid.auctionId;
    e.result == if a in book then Append(e.path, book[a], e.bid, e.at).1 else Err(UnknownAuction)
  }

  predicate Explains(book0: Book, log: seq<Entry>) {
    forall i :: 0 <= i < |log| ==> Agrees(Replay(book0, log[..i]), log[i])
  }

  /** The committed tables are what the logged calls make of the initial ones, one at a time. */
  predicate Refines(book0: Book, s: Sys) {
    && BookOf(s.db) == Replay(book0, s.log)
    && s.db.outbox == Outbox(s.log)
    && Explains(book0, s.log)
  }

  lemma LogGrows(book0: Book, log: seq<Entry>, e: Entry)
    requires Explains(book0, log) && Agrees(Replay(book0, log), e)
    ensures Replay(book0, log + [e]) == Apply(Replay(book0, log), e)
    ensures Outbox(log + [e]) == Outbox(log) + if Announces(e) then [Announcement(e)] else []
    ensures Explains(book0, log + [e])
  {
    var log' := log + [e];
    assert log'[..|log|] == log;
    forall i | 0 <= i < |log'| ensures Agrees(Replay(book0, log'[..i]), log'[i]) {
      if i < |log| {
        assert log'[..i] == log[..i];
      }
    }
  }

  lemma CommitAnnounces(db: Db, tid: nat, tx: Tx, stamp: Stamp)
    requires TablesInv(db) && TxInv(db, tx) && Execute(db, tx, stamp).Commit?
    ensures var e := EntryOf(tid, tx, Ok(ResponseOf(tx)));
            && (Announces(e) <==> tx.writes.event.Some?)
            && (Announces(e) ==> Announcement(e) == tx.writes.event.value)
  {
    assert TxOk(db.auctions[tx.bid.auctionId], tx);
  }

  lemma CommitRefines(book0: Book, s: Sys, tid: nat, tx: Tx, stamp: Stamp, s': Sys)
    requires TablesInv(s.db) && TxInv(s.db, tx) && Refines(book0, s)
    requires Execute(s.db, tx, stamp).Commit?
    requires s'.db == Committed(s.db, tx)
    requires s'.log == s.log + [EntryOf(tid, tx, Ok(ResponseOf(tx)))]
    ensures Refines(book0, s')
  {
    var e := EntryOf(tid, tx, Ok(ResponseOf(tx)));
    CommitIsAppend(s.db, tx, stamp);
    CommitAnnounces(s.db, tid, tx, stamp);
    CommitIsApply(s.db, e, s'.db, tx);
    LogGrows(book0, s.log, e);
  }

  lemma CommitIsApply(db: Db, e: Entry, db': Db, tx: Tx)
    requires e.bid == tx.bid && e.path == tx.path && e.at == tx.at
    requires tx.bid.auctionId in db.auctions && db' == Committed(db, tx)
    requires Append(tx.path, AuctionOf(db.auctions[tx.bid.auctionId]), tx.bid, tx.at).0
               == AuctionOf(Install(db.auctions[tx.bid.auctionId], tx.writes))
    ensures BookOf(db') == Apply(BookOf(db), e)
  {
  }

  lemma RefusalAgrees(db: Db, tx: Tx, stamp: Stamp, e: Entry)
    requires TablesInv(db) && TxInv(db, tx) && Execute(db, tx, stamp).Refuse?
    requires e.bid == tx.bid && e.path == tx.path && e.at == tx.at
    requires e.result == Err(Execute(db, tx, stamp).refusal)
    ensures Agrees(BookOf(db), e) && Apply(BookOf(db), e) == BookOf(db) && !Announces(e)
  {
    if tx.bid.auctionId in db.auctions {
      assert TxOk(db.auctions[tx.bid.auctionId], tx);
    }
  }

  lemma RefusalRefines(book0: Book, s: Sys, tid: nat, tx: Tx, stamp: Stamp, s': Sys)
    requires TablesInv(s.db) && TxInv(s.db, tx) && Refines(book0, s)
    requires Execute(s.db, tx, stamp).Refuse?
    requires s'.db == s.db
    requires s'.log == s.log + [EntryOf(tid, tx, Err(Execute(s.db, tx, stamp).refusal))]
    ensures Refines(book0, s')
  {
    var e := EntryOf(tid, tx, Err(Execute(s.db, tx, stamp).refusal));
    RefusalAgrees(s.db, tx, stamp, e);
    LogGrows(book0, s.log, e);
  }

  /** What a step does to the committed state and to the log. */
  lemma StepEffect(s: Sys, step: Step)
    requires Inv(s) && Enabled(s, step)
    ensures var s' := Next(s, step);
            if !step.Statement? then s'.db == s.db && s'.log == s.log
            else
              var tx := s.txs[step.tid];
              && TxInv(s.db, tx)
              && match Execute(s.db, tx, step.stamp)
                 case Continue(_) => s'.db == s.db && s'.log == s.log
                 case Refuse(r) =>
                   s'.db == s.db && s'.log == s.log + [EntryOf(step.tid, tx, Err(r))]
                 case Broken => false
                 case Commit =>
                   && s'.db == Committed(s.db, tx)
                   && s'.log == s.log + [EntryOf(step.tid, tx, Ok(ResponseOf(tx)))]
  {
    if step.Statement? {
      assert TxInv(s.db, s.txs[step.tid]);
      NothingUnexpected(s.db, s.txs[step.tid], step.stamp);
    }
  }

  lemma StepRefines(book0: Book, s: Sys, step: Step)
    requires Inv(s) && Refines(book0, s) && Enabled(s, step)
    ensures Refines(book0, Next(s, step))
  {
    StepEffect(s, step);
    if step.Statement? {
      var tx := s.txs[step.tid];
      match Execute(s.db, tx, step.stamp)
      case Continue(_) =>
      case Refuse(_) => RefusalRefines(book0, s, step.tid, tx, step.stamp, Next(s, step));
      case Commit => CommitRefines(book0, s, step.tid, tx, step.stamp, Next(s, step));
    }
  }

  /** Serializability: at every point of every run, with any number of transactions of both
      kinds in flight and any of them rolled back anywhere, the committed auctions and the
      outbox are those of the finished calls applied one at a time in commit order, and every
      caller was told what its atomic append returns. */
  lemma {:induction false} Serializable(states: seq<Sys>, steps: seq<Step>, i: nat)
    requires Run(states, steps) && Initial(states[0]) && i < |states|
    ensures Inv(states[i])
    ensures Refines(BookOf(states[0].db), states[i])
  {
    if i == 0 {
      return;
    }
    hide Next, Enabled, Inv, Refines;
    if i > 0 {
      Serializable(states, steps, i - 1);
      StepKeepsInv(states[i - 1], steps[i - 1]);
      StepRefines(BookOf(states[0].db), states[i - 1], steps[i - 1]);
    }
  }

  /** Each call of the history was told what its atomic append returns at its place, and the committed
      books are what these appends make of the first one, in that order. */
  lemma CallsAreAtomic(states: seq<Sys>, steps: seq<Step>, i: nat, k: nat)
    requires Run(states, steps) && Initial(states[0]) && i < |states|
    requires k < |states[i].log|
    ensures BookOf(states[i].db) == Replay(BookOf(states[0].db), states[i].log)
    ensures states[i].db.outbox == Outbox(states[i].log)
    ensures var e, book := states[i].log[k], Replay(BookOf(states[0].db), states[i].log[..k]);
            var a := e.bid.auctionId;
            e.result == if a in book then Append(e.path, book[a], e.bid, e.at).1 else Err(UnknownAuction)
  {
    hide Replay, Append, Outbox;
    Serializable(states, steps, i);
    assert Agrees(Replay(BookOf(states[0].db), states[i].log[..k]), states[i].log[k]);
  }

  /** Every auction's rows carry the numbers 1 to last_seq in commit order, keys differ, and
      no statement ever hits a branch that the callers report as unexpected. No uniqueness of
      (auction_id, sequence_no) or of (aggregate_id, aggregate_sequence) is assumed. */
  lemma GapFree(states: seq<Sys>, steps: seq<Step>, i: nat, a: Uuid)
    requires Run(states, steps) && Initial(states[0]) && i < |states|
    requires a in states[i].db.auctions
    ensures var t := states[i].db.auctions[a];
            && (forall k :: 0 <= k < |t.bids| ==> t.bids[k].seqNo == k + 1)
            && (forall j, k :: 0 <= j < k < |t.bids| ==> t.bids[j].bid.key != t.bids[k].bid.key)
            && |t.bids| == (if t.counter.Some? then t.counter.value else 0)
    ensures forall tid, stamp :: tid in states[i].txs ==>
              Execute(states[i].db, states[i].txs[tid], stamp) != Broken
  {
    Serializable(states, steps, i);
    var t := states[i].db.auctions[a];
    assert WellFormed(t);
    forall j, k | 0 <= j < k < |t.bids| ensures t.bids[j].bid.key != t.bids[k].bid.key {
      assert BidsOf(t.bids)[j].key != BidsOf(t.bids)[k].key;
    }
    forall tid, stamp | tid in states[i].txs
      ensures Execute(states[i].db, states[i].txs[tid], stamp) != Broken
    {
      assert TxInv(states[i].db, states[i].txs[tid]);
      NothingUnexpected(states[i].db, states[i].txs[tid], stamp);
    }
  }
}
