/** What an earlier committed state says about every later one: rows are only added, the close
    time never moves back, and an outbox row's clock reading follows its bid's number. */
module Snapshots {
  import opened Domain
  import opened Ledger
  import opened Transactions
  import opened Refinement

  /** From `t` to `t'` rows were appended and the close time stayed or moved later. */
  predicate Later(t: Tables, t': Tables) {
    && t.terms == t'.terms
    && t.bids <= t'.bids
    && t.close <= t'.close
    && t.count <= t'.count
  }

  lemma StepIsLater(s: Sys, step: Step, a: Uuid)
    requires Inv(s) && Enabled(s, step) && a in s.db.auctions
    ensures a in Next(s, step).db.auctions && Later(s.db.auctions[a], Next(s, step).db.auctions[a])
  {
    StepEffect(s, step);
    if step.Statement? && Execute(s.db, s.txs[step.tid], step.stamp).Commit? {
      assert WellFormed(s.db.auctions[a]);
    }
  }

  /** The ledger is append-only and its close time monotone along every run. */
  lemma {:induction false} RunIsLater(states: seq<Sys>, steps: seq<Step>, i: nat, j: nat, a: Uuid)
    requires Run(states, steps) && Initial(states[0]) && i <= j < |states|
    requires a in states[i].db.auctions
    ensures a in states[j].db.auctions && Later(states[i].db.auctions[a], states[j].db.auctions[a])
  {
    hide Next, Enabled, Inv, Refines, Initial;
    if i < j {
      RunIsLater(states, steps, i, j - 1, a);
      Serializable(states, steps, j - 1);
      StepIsLater(states[j - 1], steps[j - 1], a);
    }
  }

  lemma KeptKey(rows: seq<BidRow>, rows': seq<BidRow>, key: Uuid)
    requires rows <= rows' && HasKey(BidsOf(rows), key)
    ensures HasKey(BidsOf(rows'), key)
  {
    var i := Find(BidsOf(rows), key);
    assert BidsOf(rows')[i] == BidsOf(rows)[i];
  }

  /** A transaction that turns a bid away as late does so for every snapshot committed before:
      the bid is not before any earlier close time, and its key was in none of those ledgers.
      So a bid that was on time against some committed snapshot is never late afterwards, and
      a committed bid is never late on replay, whatever ran in between. */
  lemma LateAgainstEverySnapshot(states: seq<Sys>, steps: seq<Step>, i: nat, j: nat)
    requires Run(states, steps) && Initial(states[0]) && i <= j < |steps|
    requires steps[j].Statement?
    requires Execute(states[j].db, states[j].txs[steps[j].tid], steps[j].stamp)
               == Refuse(AtOrAfterClose)
    requires states[j].txs[steps[j].tid].bid.auctionId in states[i].db.auctions
    ensures var tx := states[j].txs[steps[j].tid];
            var t := states[i].db.auctions[tx.bid.auctionId];
            tx.at >= t.close && !HasKey(BidsOf(t.bids), tx.bid.key)
  {
    var tx := states[j].txs[steps[j].tid];
    var a := tx.bid.auctionId;
    RunIsLater(states, steps, i, j, a);
    Serializable(states, steps, j);
    assert TxInv(states[j].db, tx);
    var t := states[i].db.auctions[a];
    if HasKey(BidsOf(t.bids), tx.bid.key) {
      KeptKey(t.bids, states[j].db.auctions[a].bids, tx.bid.key);
    }
  }

  // ---- Clock readings ----

  predicate StampsEvent(s: Sys, step: Step) {
    step.Statement? && step.tid in s.txs && s.txs[step.tid].pc.InsertEvent?
  }

  /** Every reading that a state holds, committed or private, is before `bound`. */
  predicate StampsBefore(s: Sys, bound: Time) {
    && (forall i :: 0 <= i < |s.db.outbox| ==> s.db.outbox[i].stamp.createdAt < bound)
    && (forall t :: t in s.txs && s.txs[t].writes.event.Some? ==>
          s.txs[t].writes.event.value.stamp.createdAt < bound)
  }

  /** The clock, read for a new event, is past every reading in the tables and in open
      transactions. */
  predicate ReadsLater(s: Sys, step: Step) {
    StampsEvent(s, step) ==> StampsBefore(s, step.stamp.createdAt)
  }

  /** Hypothesis: `clock_timestamp()` is read strictly later by a later statement. */
  ghost predicate StrictClock(states: seq<Sys>, steps: seq<Step>)
    requires |states| == |steps| + 1
  {
    forall i :: 0 <= i < |steps| ==> ReadsLater(states[i], steps[i])
  }

  /** Identifiers are distinct, over committed and private rows. */
  predicate DistinctIds(s: Sys) {
    && (forall i, j :: 0 <= i < j < |s.db.outbox| ==>
          s.db.outbox[i].stamp.id != s.db.outbox[j].stamp.id)
    && (forall i, t :: 0 <= i < |s.db.outbox| && t in s.txs && s.txs[t].writes.event.Some? ==>
          s.db.outbox[i].stamp.id != s.txs[t].writes.event.value.stamp.id)
    && (forall t, u :: t in s.txs && u in s.txs && t != u
                       && s.txs[t].writes.event.Some? && s.txs[u].writes.event.Some? ==>
          s.txs[t].writes.event.value.stamp.id != s.txs[u].writes.event.value.stamp.id)
  }

  /** Within an auction, committed rows are in clock order, and a private row is after them. */
  predicate StampsOrdered(s: Sys) {
    && (forall i, j :: 0 <= i < j < |s.db.outbox|
                       && s.db.outbox[i].event.bid.auctionId == s.db.outbox[j].event.bid.auctionId ==>
          s.db.outbox[i].stamp.createdAt < s.db.outbox[j].stamp.createdAt)
    && (forall i, t :: 0 <= i < |s.db.outbox| && t in s.txs && s.txs[t].writes.event.Some?
                       && s.db.outbox[i].event.bid.auctionId == s.txs[t].bid.auctionId ==>
          s.db.outbox[i].stamp.createdAt < s.txs[t].writes.event.value.stamp.createdAt)
  }

  /** A statement leaves the private row alone, except the one that makes it. */
  lemma StatementEvent(db: Db, tx: Tx, stamp: Stamp)
    requires Execute(db, tx, stamp).Continue?
    ensures var tx' := Execute(db, tx, stamp).tx;
            && tx'.bid == tx.bid
            && if tx.pc.InsertEvent?
               then tx'.writes.event.Some? && tx'.writes.event.value.stamp == stamp
                    && tx'.writes.event.value.event.bid == tx.bid
               else tx'.writes.event == tx.writes.event
  {
  }

  /** A transaction begins or goes on; its private event, if it is new, has a new identifier. */
  lemma IdsGoOn(s: Sys, s': Sys, tid: nat, tx: Tx)
    requires DistinctIds(s) && s'.db.outbox == s.db.outbox && s'.txs == s.txs[tid := tx]
    requires tx.writes.event.Some? ==>
               FreshId(s, tx.writes.event.value.stamp.id)
               || (tid in s.txs && s.txs[tid].writes.event == tx.writes.event)
    ensures DistinctIds(s')
  {
  }

  /** A transaction ends, with or without its event. */
  lemma IdsEnd(s: Sys, s': Sys, tid: nat)
    requires DistinctIds(s) && tid in s.txs && s'.txs == s.txs - {tid}
    requires s'.db.outbox == s.db.outbox
             || (s.txs[tid].writes.event.Some?
                 && s'.db.outbox == s.db.outbox + [s.txs[tid].writes.event.value])
    ensures DistinctIds(s')
  {
  }

  lemma StepKeepsIds(s: Sys, step: Step)
    requires Inv(s) && DistinctIds(s) && Enabled(s, step)
    ensures DistinctIds(Next(s, step))
  {
    hide Execute, Inv, Install, EntryOf, DistinctIds, FreshId;
    StepEffect(s, step);
    match step
    case Begin(tid, path, bid, at) =>
      IdsGoOn(s, Next(s, step), tid, Begun(path, bid, at));
    case Rollback(tid) =>
      IdsEnd(s, Next(s, step), tid);
    case Statement(tid, stamp) =>
      if Execute(s.db, s.txs[tid], stamp).Continue? {
        StatementEvent(s.db, s.txs[tid], stamp);
        IdsGoOn(s, Next(s, step), tid, Execute(s.db, s.txs[tid], stamp).tx);
      } else {
        IdsEnd(s, Next(s, step), tid);
      }
  }

  /** Whoever has a private event holds its auction. */
  lemma EventHolder(s: Sys, t: nat)
    requires Inv(s) && t in s.txs && s.txs[t].writes.event.Some?
    ensures HoldsAuction(s.txs[t]) && s.auctionLocks[s.txs[t].bid.auctionId] == t
    ensures s.txs[t].writes.event.value.event.bid == s.txs[t].bid
  {
    assert TxInv(s.db, s.txs[t]);
  }

  lemma StepKeepsOrder(s: Sys, step: Step)
    requires Inv(s) && StampsOrdered(s) && Enabled(s, step)
    requires ReadsLater(s, step)
    ensures StampsOrdered(Next(s, step))
  {
    hide Execute, Inv, Install, EntryOf;
    StepEffect(s, step);
    if step.Statement? {
      var tx := s.txs[step.tid];
      match Execute(s.db, tx, step.stamp)
      case Continue(_) => StatementEvent(s.db, tx, step.stamp);
      case Refuse(_) =>
      case Commit =>
        if tx.writes.event.Some? {
          EventHolder(s, step.tid);
          forall t | t in s.txs && t != step.tid && s.txs[t].writes.event.Some?
            ensures s.txs[t].bid.auctionId != tx.bid.auctionId
          {
            EventHolder(s, t);
          }
        }
    }
  }

  lemma {:induction false} OutboxIdsDistinct(states: seq<Sys>, steps: seq<Step>, n: nat)
    requires Run(states, steps) && Initial(states[0]) && n < |states|
    ensures DistinctIds(states[n])
  {
    hide Next, Enabled, Inv, Refines;
    if n > 0 {
      OutboxIdsDistinct(states, steps, n - 1);
      Serializable(states, steps, n - 1);
      StepKeepsIds(states[n - 1], steps[n - 1]);
    }
  }

  /** With a strict clock, `created_at` rises along each auction's committed events, however the
      transactions interleave: the reading is taken and committed under the auction lock. */
  lemma {:induction false} StampsFollowSequence(states: seq<Sys>, steps: seq<Step>, n: nat)
    requires Run(states, steps) && Initial(states[0]) && StrictClock(states, steps)
    requires n < |states|
    ensures StampsOrdered(states[n])
  {
    hide Next, Enabled, Inv, Refines;
    if n > 0 {
      StampsFollowSequence(states, steps, n - 1);
      Serializable(states, steps, n - 1);
      assert ReadsLater(states[n - 1], steps[n - 1]);
      StepKeepsOrder(states[n - 1], steps[n - 1]);
    }
  }
}
