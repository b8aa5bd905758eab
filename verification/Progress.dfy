/** Who waits for whom, and when nobody can move. */
module Progress {
  import opened Domain
  import opened Ledger
  import opened Transactions
  import opened Refinement

  function Rung(tx: Tx): nat {
    if HoldsCounter(tx) then 2 else if tx.pc.LockAuction? then 0 else 1
  }

  /** A row-lock transaction that owns the counter row is at a foreign-key check, while an
      anti-snipe transaction has the auction row and is on its way to the counter. */
  predicate ForeignKeyWait(s: Sys, t: nat, u: nat) {
    && t in s.txs && u in s.txs && s.txs[t].bid.auctionId == s.txs[u].bid.auctionId
    && s.txs[t].path.RowLock? && (s.txs[t].pc.CheckCounter? || s.txs[t].pc.CheckBid?)
    && s.txs[u].path.AntiSnipe? && HoldsAuction(s.txs[u]) && !HoldsCounter(s.txs[u])
  }

  /** Auction row before counter row: a wait leads to a higher rung. The one exception is a
      foreign-key check of the row-lock path. No insert ever waits for another transaction's
      uncommitted bid. */
  lemma WaitsClimb(s: Sys, t: nat, u: nat)
    requires Inv(s) && WaitsFor(s, t, u)
    ensures Rung(s.txs[t]) < Rung(s.txs[u]) || ForeignKeyWait(s, t, u)
    ensures s.txs[t].bid.auctionId == s.txs[u].bid.auctionId && !s.txs[t].pc.InsertBid?
  {
    hide WellFormed;
    assert TxInv(s.db, s.txs[t]) && TxInv(s.db, s.txs[u]);
    if s.txs[t].pc.InsertBid? {
      assert false;  // both would hold the one counter row
    }
  }

  /** Whoever owns the counter row. */
  lemma OneCounterOwner(s: Sys, t: nat, v: nat)
    requires LocksInv(s) && t in s.txs && v in s.txs && HoldsCounter(s.txs[t]) && HoldsCounter(s.txs[v])
    requires s.txs[t].bid.auctionId == s.txs[v].bid.auctionId
    ensures t == v
  {
  }

  /** What the anti-snipe side of a foreign-key wait waits for, if it waits, is the other side. */
  lemma WaitsBack(s: Sys, t: nat, u: nat, v: nat)
    requires Inv(s) && ForeignKeyWait(s, t, u) && WaitsFor(s, u, v)
    ensures v == t && HoldsCounter(s.txs[t])
  {
    assert TxInv(s.db, s.txs[t]) && TxInv(s.db, s.txs[u]);
    WaitsClimb(s, u, v);
    OneCounterOwner(s, t, v);
  }

  /** A chain of waits, each transaction waiting for the next. */
  ghost predicate Chain(s: Sys, ts: seq<nat>) {
    forall i :: 0 <= i < |ts| - 1 ==> WaitsFor(s, ts[i], ts[i + 1])
  }

  ghost predicate Deadlock(s: Sys) {
    exists ts: seq<nat> :: |ts| > 1 && Chain(s, ts) && ts[0] == ts[|ts| - 1]
  }

  /** The two sides of a foreign-key wait, both waiting. */
  ghost predicate DeadlyPair(s: Sys, t: nat, u: nat) {
    ForeignKeyWait(s, t, u) && WaitsFor(s, u, t)
  }

  lemma PairWaits(s: Sys, t: nat, u: nat)
    requires Inv(s) && ForeignKeyWait(s, t, u)
    ensures WaitsFor(s, t, u)
  {
  }

  /** A chain climbs as long as it meets no foreign-key wait. */
  lemma {:induction false} ChainClimbs(s: Sys, ts: seq<nat>, i: nat, j: nat)
    requires Inv(s) && Chain(s, ts) && i < j < |ts|
    requires forall k :: 0 <= k < |ts| - 1 ==> !ForeignKeyWait(s, ts[k], ts[k + 1])
    ensures ts[i] in s.txs && ts[j] in s.txs && Rung(s.txs[ts[i]]) < Rung(s.txs[ts[j]])
  {
    hide Inv, ForeignKeyWait, WaitsFor, Rung;
    assert WaitsFor(s, ts[j - 1], ts[j]);
    WaitsClimb(s, ts[j - 1], ts[j]);
    WaitersOpen(s, ts[j - 1], ts[j]);
    if i < j - 1 {
      ChainClimbs(s, ts, i, j - 1);
    }
  }

  lemma WaitersOpen(s: Sys, t: nat, u: nat)
    requires WaitsFor(s, t, u)
    ensures t in s.txs && u in s.txs
  {
  }

  /** A cycle of waits is one row-lock transaction and one anti-snipe transaction on one auction,
      the first with the counter row and at a foreign-key check, the second with the auction row
      and waiting for the counter row. */
  lemma DeadlockIsPair(s: Sys)
    requires Inv(s)
    ensures Deadlock(s) <==> exists t, u :: DeadlyPair(s, t, u)
  {
    hide Inv, ForeignKeyWait, WaitsFor, Rung;
    if Deadlock(s) {
      var ts: seq<nat> :| |ts| > 1 && Chain(s, ts) && ts[0] == ts[|ts| - 1];
      if k :| 0 <= k < |ts| - 1 && ForeignKeyWait(s, ts[k], ts[k + 1]) {
        var next := if k + 2 < |ts| then k + 2 else 1;
        assert WaitsFor(s, ts[next - 1], ts[next]);
        assert ts[next - 1] == ts[k + 1];
        WaitsBack(s, ts[k], ts[k + 1], ts[next]);
        assert DeadlyPair(s, ts[k], ts[k + 1]);
      } else {
        ChainClimbs(s, ts, 0, |ts| - 1);
      }
    }
    forall t, u | DeadlyPair(s, t, u) ensures Deadlock(s) {
      PairWaits(s, t, u);
      assert Chain(s, [t, u, t]);
    }
  }

  lemma BackIsDeadly(s: Sys, t: nat, u: nat, v: nat)
    requires Inv(s) && ForeignKeyWait(s, t, u) && WaitsFor(s, u, v)
    ensures DeadlyPair(s, t, u)
  {
    WaitsBack(s, t, u, v);
  }

  /** Follow the waits from `t`: they end at a transaction that can run, or in a deadly pair. */
  lemma SomeoneRuns(s: Sys, t: nat) returns (u: nat)
    requires Inv(s) && t in s.txs && forall v, w :: !DeadlyPair(s, v, w)
    ensures u in s.txs && !Blocked(s, u) && s.txs[u].bid.auctionId == s.txs[t].bid.auctionId
    decreases 2 - Rung(s.txs[t])
  {
    hide Inv, ForeignKeyWait, WaitsFor;
    if Blocked(s, t) {
      var v :| WaitsFor(s, t, v);
      WaitersOpen(s, t, v);
      WaitsClimb(s, t, v);
      if ForeignKeyWait(s, t, v) {
        if w :| WaitsFor(s, v, w) {
          BackIsDeadly(s, t, v, w);
        }
        u := v;
      } else {
        u := SomeoneRuns(s, v);
      }
    } else {
      u := t;
    }
  }

  /** Transactions of both paths are open on the auction. */
  ghost predicate Mixed(s: Sys, a: Uuid) {
    exists t, u :: t in s.txs && u in s.txs && s.txs[t].path.RowLock? && s.txs[u].path.AntiSnipe?
                   && s.txs[t].bid.auctionId == a == s.txs[u].bid.auctionId
  }

  lemma PairIsMixed(s: Sys, t: nat, u: nat)
    requires DeadlyPair(s, t, u)
    ensures Mixed(s, s.txs[t].bid.auctionId)
  {
  }

  /** Deadlock, in every reachable state of mixed histories: there is one exactly when some auction
      has a deadly pair; and while there is none, every auction with an open transaction has one
      that can run its next statement. */
  lemma DeadlockExactly(states: seq<Sys>, steps: seq<Step>, n: nat)
    requires Run(states, steps) && Initial(states[0]) && n < |states|
    ensures Deadlock(states[n]) <==> exists t, u :: DeadlyPair(states[n], t, u)
    ensures !Deadlock(states[n]) ==> forall t :: t in states[n].txs ==>
              exists u :: u in states[n].txs && !Blocked(states[n], u)
                          && states[n].txs[u].bid.auctionId == states[n].txs[t].bid.auctionId
  {
    hide Inv, ForeignKeyWait, WaitsFor, Run, Initial, Refines, Blocked, Deadlock, DeadlyPair;
    Serializable(states, steps, n);
    var s := states[n];
    DeadlockIsPair(s);
    if !Deadlock(s) {
      forall t | t in s.txs
        ensures exists u :: u in s.txs && !Blocked(s, u) && s.txs[u].bid.auctionId == s.txs[t].bid.auctionId
      {
        var u := SomeoneRuns(s, t);
      }
    }
  }

  /** No deadlock while no auction has open transactions of both paths: whatever is open on an
      auction, something open on it can run its next statement. */
  lemma NoDeadlock(states: seq<Sys>, steps: seq<Step>, n: nat)
    requires Run(states, steps) && Initial(states[0]) && n < |states|
    requires forall a :: !Mixed(states[n], a)
    ensures !Deadlock(states[n])
    ensures forall t :: t in states[n].txs ==>
              exists u :: u in states[n].txs && !Blocked(states[n], u)
                          && states[n].txs[u].bid.auctionId == states[n].txs[t].bid.auctionId
  {
    hide Run, Initial, Blocked, Deadlock;
    DeadlockExactly(states, steps, n);
    forall t, u ensures !DeadlyPair(states[n], t, u) {
      if DeadlyPair(states[n], t, u) {
        PairIsMixed(states[n], t, u);
      }
    }
  }

  /** The ON CONFLICT branch of the anti-snipe path is never taken, even beside row-lock calls:
      a key that was not found under the auction lock is still not there at the insert, because a
      bid that could be committed in between would need a share of the auction row. */
  lemma ConflictUnreachable(states: seq<Sys>, steps: seq<Step>, n: nat, t: nat)
    requires Run(states, steps) && Initial(states[0]) && n < |states|
    requires t in states[n].txs && states[n].txs[t].path.AntiSnipe?
    ensures var tx := states[n].txs[t];
            && !tx.pc.FindExisting? && !tx.pc.CommitDuplicate?
            && (LooksForward(tx.pc) ==>
                  && tx.bid.auctionId in states[n].db.auctions
                  && !HasKey(BidsOf(states[n].db.auctions[tx.bid.auctionId].bids), tx.bid.key))
  {
    hide Refines, LocksInv, SharesInv, TablesInv, Run, Initial;
    Serializable(states, steps, n);
    assert TxInv(states[n].db, states[n].txs[t]);
  }

  /** How far a transaction still has to go. */
  function ToGo(pc: Pc): nat {
    match pc
    case LockAuction => 13
    case FindKey => 12
    case EnsureCounter => 11
    case CheckCounter => 10
    case LockCounter => 9
    case InsertBid => 8
    case CheckBid => 7
    case FindExisting => 6
    case AdvanceCounter => 5
    case Extend => 4
    case InsertEvent => 3
    case CommitReplay => 1
    case CommitDuplicate => 1
    case CommitInsert => 1
  }

  lemma StatementAdvances(db: Db, tx: Tx, stamp: Stamp)
    requires Execute(db, tx, stamp).Continue?
    ensures var tx' := Execute(db, tx, stamp).tx;
            && ToGo(tx'.pc) < ToGo(tx.pc)
            && tx'.path == tx.path && tx'.bid == tx.bid && tx'.at == tx.at
  {
  }

  /** With one transaction open there is an identifier for its event, and nothing blocks it. */
  lemma AloneCanRun(s: Sys, t: nat) returns (stamp: Stamp)
    requires s.txs.Keys == {t}
    ensures Enabled(s, Statement(t, stamp))
  {
    var id := IdAboveAll(s.db.outbox);
    if s.txs[t].writes.event.Some? && s.txs[t].writes.event.value.stamp.id >= id {
      id := s.txs[t].writes.event.value.stamp.id + 1;
    }
    stamp := Stamp(id, 0);
    assert t in s.txs.Keys;
    forall u ensures !WaitsFor(s, t, u) {
      assert u in s.txs ==> u in s.txs.Keys;
    }
    forall u | u in s.txs ensures u == t {
      assert u in s.txs.Keys;
    }
  }

  lemma RunGrows(s: Sys, step: Step, states: seq<Sys>, steps: seq<Step>)
    requires Enabled(s, step) && Run(states, steps) && states[0] == Next(s, step)
    ensures Run([s] + states, [step] + steps)
  {
    hide Enabled, Next;
  }

  /** `e` is how the call of `tx` went. */
  predicate Returns(e: Entry, tid: nat, tx: Tx) {
    e.tid == tid && e.path == tx.path && e.bid == tx.bid && e.at == tx.at
  }

  lemma AloneSteps(book0: Book, s: Sys, t: nat, stamp: Stamp)
    requires Inv(s) && Refines(book0, s) && s.txs.Keys == {t} && Enabled(s, Statement(t, stamp))
    ensures var s' := Next(s, Statement(t, stamp));
            && Inv(s') && Refines(book0, s')
            && if Execute(s.db, s.txs[t], stamp).Continue?
               then s'.txs == map[t := Execute(s.db, s.txs[t], stamp).tx] && s'.log == s.log
               else s'.txs == map[]
                    && exists e :: s'.log == s.log + [e] && Returns(e, t, s.txs[t])
  {
    hide Inv, Refines, Execute, TxInv, Committed;
    StepKeepsInv(s, Statement(t, stamp));
    StepRefines(book0, s, Statement(t, stamp));
    StepEffect(s, Statement(t, stamp));
    var s' := Next(s, Statement(t, stamp));
    if !Execute(s.db, s.txs[t], stamp).Continue? {
      var e := s'.log[|s.log|];
      assert s'.log == s.log + [e] && Returns(e, t, s.txs[t]);
    }
  }

  /** A transaction left alone ends, and its call returns what the atomic append returns. */
  lemma {:induction false} RunsAlone(book0: Book, s: Sys, t: nat)
    returns (states: seq<Sys>, steps: seq<Step>, e: Entry)
    requires Inv(s) && Refines(book0, s) && s.txs.Keys == {t}
    ensures Run(states, steps) && states[0] == s
    ensures forall i :: 0 <= i < |steps| ==> steps[i].Statement?
    ensures Returns(e, t, s.txs[t]) && Agrees(BookOf(s.db), e)
    ensures var s' := states[|steps|];
            && Inv(s') && Refines(book0, s')
            && s'.txs == map[] && s'.log == s.log + [e] && BookOf(s'.db) == Apply(BookOf(s.db), e)
    decreases ToGo(s.txs[t].pc)
  {
    hide Inv, Enabled, Next, Execute, Refines, Agrees, Apply, BookOf;
    assert t in s.txs.Keys;
    var stamp := AloneCanRun(s, t);
    var s' := Next(s, Statement(t, stamp));
    AloneSteps(book0, s, t, stamp);
    var rest, more;
    if Execute(s.db, s.txs[t], stamp).Continue? {
      StatementAdvances(s.db, s.txs[t], stamp);
      rest, more, e := RunsAlone(book0, s', t);
    } else {
      e :| s'.log == s.log + [e] && Returns(e, t, s.txs[t]);
      rest, more := [s'], [];
    }
    RunGrows(s, Statement(t, stamp), rest, more);
    states, steps := [s] + rest, [Statement(t, stamp)] + more;
    LastEntry(book0, s, states[|steps|], e);
  }

  lemma LastEntry(book0: Book, s: Sys, s': Sys, e: Entry)
    requires Refines(book0, s) && Refines(book0, s') && s'.log == s.log + [e]
    ensures Agrees(BookOf(s.db), e) && BookOf(s'.db) == Apply(BookOf(s.db), e)
  {
    assert s'.log[..|s.log|] == s.log;
    assert Agrees(Replay(book0, s'.log[..|s.log|]), s'.log[|s.log|]);
  }
}
