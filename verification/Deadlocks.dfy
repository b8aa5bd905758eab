/** A reachable deadlock between the two append paths. */
module Deadlocks {
  import opened Domain
  import opened Ledger
  import opened Transactions
  import opened Progress

  const BID := Bid(0, 0, 1, 7, "", "")
  const OPEN := Tables(Terms(1, 1, 0), 10, 0, Some(0), [])
  const EMPTY := Db(map[0 := OPEN], [])
  const STAMP := Stamp(0, 0)

  lemma {:induction false} More(states: seq<Sys>, steps: seq<Step>, step: Step, s: Sys)
    returns (states': seq<Sys>, steps': seq<Step>)
    requires Run(states, steps) && Enabled(states[|steps|], step) && s == Next(states[|steps|], step)
    ensures Run(states', steps') && states'[0] == states[0]
    ensures |steps'| == |steps| + 1 && states'[|steps'|] == s
  {
    states', steps' := states + [s], steps + [step];
  }

  function First(pc: Pc): Tx {
    Tx(AntiSnipe, BID, 5, pc, if pc.LockAuction? then 0 else 10, 0, 0, 0, NO_WRITES, false)
  }

  function Second(pc: Pc, bid: Option<BidRow>): Tx {
    Tx(RowLock, BID, 5, pc, 0, 0, 0, 0, NO_WRITES.(bid := bid), false)
  }

  function Both(first: Pc, second: Pc, bid: Option<BidRow>, counterLocks: map<Uuid, nat>): Sys {
    Sys(EMPTY, map[1 := First(first), 2 := Second(second, bid)], map[0 := 1], counterLocks, [])
  }

  /** An anti-snipe call locks the auction row, looks its key up and finds nothing. */
  lemma KeyNotFound() returns (states: seq<Sys>, steps: seq<Step>)
    ensures Run(states, steps) && Initial(states[0])
    ensures states[|steps|] == Sys(EMPTY, map[1 := First(EnsureCounter)], map[0 := 1], map[], [])
  {
    states, steps := [Sys(EMPTY, map[], map[], map[], [])], [];
    states, steps := More(states, steps, Begin(1, AntiSnipe, BID, 5),
      Sys(EMPTY, map[1 := First(LockAuction)], map[], map[], []));
    states, steps := More(states, steps, Statement(1, STAMP),
      Sys(EMPTY, map[1 := First(FindKey)], map[0 := 1], map[], []));
    states, steps := More(states, steps, Statement(1, STAMP),
      Sys(EMPTY, map[1 := First(EnsureCounter)], map[0 := 1], map[], []));
  }

  /** A row-lock call locks the counter row. */
  lemma SecondLocks() returns (states: seq<Sys>, steps: seq<Step>)
    ensures Run(states, steps) && Initial(states[0])
    ensures states[|steps|] == Both(EnsureCounter, InsertBid, None, map[0 := 2])
  {
    hide Run;
    states, steps := KeyNotFound();
    states, steps := More(states, steps, Begin(2, RowLock, BID, 5),
      Both(EnsureCounter, EnsureCounter, None, map[]));
    states, steps := More(states, steps, Statement(2, STAMP),
      Both(EnsureCounter, LockCounter, None, map[]));
    states, steps := More(states, steps, Statement(2, STAMP),
      Both(EnsureCounter, InsertBid, None, map[0 := 2]));
  }

  /** It inserts its bid; the anti-snipe call goes on to the counter row. */
  lemma BothStuck() returns (states: seq<Sys>, steps: seq<Step>)
    ensures Run(states, steps) && Initial(states[0])
    ensures states[|steps|] == Both(LockCounter, CheckBid, Some(BidRow(1, BID)), map[0 := 2])
  {
    hide Run;
    states, steps := SecondLocks();
    var bid := Some(BidRow(1, BID));
    states, steps := More(states, steps, Statement(2, STAMP),
      Both(EnsureCounter, CheckBid, bid, map[0 := 2]));
    states, steps := More(states, steps, Statement(1, STAMP),
      Both(LockCounter, CheckBid, bid, map[0 := 2]));
  }

  /** The row-lock call has the counter row, and the foreign-key check of its insert wants a share
      of the auction row; the anti-snipe call has the auction row and wants the counter row. */
  lemma MixedDeadlock() returns (states: seq<Sys>, steps: seq<Step>)
    ensures Run(states, steps) && Initial(states[0])
    ensures DeadlyPair(states[|steps|], 2, 1) && Deadlock(states[|steps|])
    ensures forall t :: t in states[|steps|].txs ==> Blocked(states[|steps|], t)
  {
    hide Run, Initial;
    states, steps := BothStuck();
    var stuck := Both(LockCounter, CheckBid, Some(BidRow(1, BID)), map[0 := 2]);
    assert WaitsFor(stuck, 2, 1) && WaitsFor(stuck, 1, 2);
    assert Chain(stuck, [2, 1, 2]);
  }

}
