/** Where the bids of a ledger come from when only workers append to it, and when the prices of
    several workers rise. */
module Origins {
  import opened Domain
  import opened Ledger
  import opened Settlement
  import opened Pipeline
  import opened Prices
  import opened Streams
  import Transactions
  import Refinement
  import Snapshots
  import Outbox

  /** Nobody but the workers begins a transaction on the auction. */
  predicate OnlyWorkersBegin(steps: seq<Step>, a: Uuid) {
    forall i :: 0 <= i < |steps| && steps[i].LedgerStep? && steps[i].step.Begin? ==>
      steps[i].step.bid.auctionId != a
  }

  /** The delivered message that reads as this bid was let through on this book. */
  predicate LetThrough(c: Config, g: Group, call: Call, bid: Bid) {
    && call.position < g.delivered <= |g.stream|
    && Readable(c, g.stream[call.position])
    && BidAt(c, g.stream[call.position]) == bid
    && Accepts(c, call.snapshot, Parsed(g.stream[call.position]).value)
  }

  /** A worker that has been let through has been let through on a book that was committed before. */
  ghost predicate WorkersJudged(c: Config, worlds: seq<World>, n: nat)
    requires n < |worlds|
  {
    var w := worlds[n];
    forall k :: k in w.workers && w.workers[k].stage.Accepted? ==>
      MayBegin(c, w, k) && WasCommitted(worlds, n, w.workers[k].stage.snapshot)
  }

  predicate MayBegin(c: Config, w: World, k: nat)
    requires k in w.workers && w.workers[k].stage.Accepted?
  {
    && Busy(w, k, w.workers[k].stage)
    && w.workers[k].batch[0] < w.group.delivered <= |w.group.stream|
    && Accepts(c, w.workers[k].stage.snapshot, Parsed(Current(w, k)).value)
  }

  /** Every open transaction on the auction is the call of a worker. */
  ghost predicate TxsCalled(c: Config, worlds: seq<World>, n: nat, a: Uuid)
    requires n < |worlds|
  {
    var w := worlds[n];
    forall t :: t in w.ledger.txs && w.ledger.txs[t].bid.auctionId == a ==>
      t in w.calls && TxCalled(c, worlds, n, w.calls[t], w.ledger.txs[t].bid)
  }

  ghost predicate TxCalled(c: Config, worlds: seq<World>, n: nat, call: Call, bid: Bid)
    requires n < |worlds|
  {
    LetThrough(c, worlds[n].group, call, bid) && WasCommitted(worlds, n, call.snapshot)
  }

  /** A bid comes from a delivered message that the hook let through on a book committed before. */
  ghost predicate Sourced(c: Config, worlds: seq<World>, n: nat, bid: Bid)
    requires n < |worlds|
  {
    exists call :: TxCalled(c, worlds, n, call, bid)
  }

  ghost predicate BidsSourced(c: Config, worlds: seq<World>, n: nat, a: Uuid)
    requires n < |worlds|
  {
    forall i :: a in worlds[n].ledger.db.auctions && 0 <= i < |worlds[n].ledger.db.auctions[a].bids| ==>
      Sourced(c, worlds, n, worlds[n].ledger.db.auctions[a].bids[i].bid)
  }

  // ---- What a step of the ledger does ----

  /** The statement commits a new bid of the auction. */
  predicate InsertingCommit(s: Transactions.Sys, step: Transactions.Step, a: Uuid) {
    && step.Statement? && step.tid in s.txs && s.txs[step.tid].bid.auctionId == a
    && s.txs[step.tid].pc.CommitInsert?
  }

  lemma TxsStay(s: Transactions.Sys, step: Transactions.Step, t: nat)
    requires Refinement.Inv(s) && Transactions.Enabled(s, step) && t in Transactions.Next(s, step).txs
    ensures if step.Begin? && step.tid == t then Transactions.Next(s, step).txs[t].bid == step.bid
            else t in s.txs && Transactions.Next(s, step).txs[t].bid == s.txs[t].bid
  {
    hide Refinement.Inv, Transactions.Committed;
  }

  lemma BidsGrow(s: Transactions.Sys, step: Transactions.Step, a: Uuid)
    requires Refinement.Inv(s) && Transactions.Enabled(s, step) && a in s.db.auctions
    ensures var s' := Transactions.Next(s, step);
            && a in s'.db.auctions
            && Transactions.BidsOf(s'.db.auctions[a].bids) ==
                 Transactions.BidsOf(s.db.auctions[a].bids)
                 + if InsertingCommit(s, step, a) then [s.txs[step.tid].bid] else []
  {
    hide Refinement.Inv, Transactions.Next, Transactions.Execute;
    Refinement.StepEffect(s, step);
    if step.Statement? {
      CommitGrows(s.db, s.txs[step.tid], step.stamp, a);
    }
  }

  lemma CommitGrows(db: Transactions.Db, tx: Transactions.Tx, stamp: Stamp, a: Uuid)
    requires Refinement.TxInv(db, tx) && a in db.auctions
    ensures Transactions.Execute(db, tx, stamp).Commit? ==>
              && a in Transactions.Committed(db, tx).auctions
              && Transactions.BidsOf(Transactions.Committed(db, tx).auctions[a].bids) ==
                   Transactions.BidsOf(db.auctions[a].bids)
                   + if tx.bid.auctionId == a && tx.pc.CommitInsert? then [tx.bid] else []
    ensures tx.bid.auctionId == a && tx.pc.CommitInsert? ==> Transactions.Execute(db, tx, stamp).Commit?
  {
  }

  // ---- What a step of the pipeline does ----

  /** Streams and deliveries only grow. */
  predicate GroupGrows(g: Group, g': Group) {
    g.stream <= g'.stream && g.delivered <= g'.delivered <= |g'.stream|
  }

  lemma StepGrowsGroup(c: Config, w: World, step: Step)
    requires Enabled(c, w, step) && w.group.delivered <= |w.group.stream|
    ensures GroupGrows(w.group, Next(c, w, step).group)
  {
    hide Transactions.Next, Transactions.Enabled, Parsed, Accepts, Readable, BidAt, TimeAt;
  }

  lemma LetThroughStays(c: Config, g: Group, g': Group, call: Call, bid: Bid)
    requires LetThrough(c, g, call, bid) && GroupGrows(g, g')
    ensures LetThrough(c, g', call, bid)
  {
    hide Readable, BidAt, Accepts, Parsed;
  }

  lemma StillCommitted(worlds: seq<World>, n: nat, book: Book)
    requires WasCommitted(worlds, n, book)
    ensures WasCommitted(worlds, n + 1, book)
  {
    hide CommittedIn;
  }

  lemma CalledStays(c: Config, worlds: seq<World>, n: nat, call: Call, bid: Bid)
    requires n + 1 < |worlds| && TxCalled(c, worlds, n, call, bid)
    requires GroupGrows(worlds[n].group, worlds[n + 1].group)
    ensures TxCalled(c, worlds, n + 1, call, bid)
  {
    hide LetThrough, WasCommitted;
    LetThroughStays(c, worlds[n].group, worlds[n + 1].group, call, bid);
    StillCommitted(worlds, n, call.snapshot);
  }

  /** A worker that has been let through has been so just now or was so before. */
  lemma WorkerBefore(c: Config, w: World, step: Step, k: nat)
    requires Enabled(c, w, step) && k in Next(c, w, step).workers
    requires Next(c, w, step).workers[k].stage.Accepted?
    ensures var worker := Next(c, w, step).workers[k];
            if step.Judge? && step.worker == k then
              && Busy(w, k, Fetched) && worker.batch == w.workers[k].batch
              && worker.stage.snapshot == step.snapshot
              && Accepts(c, step.snapshot, Parsed(Current(w, k)).value)
            else k in w.workers && w.workers[k] == worker
  {
    hide Transactions.Next, Transactions.Enabled, Outbox.Next, Outbox.Enabled, Readable, BidAt, TimeAt,
         Parsed, Accepts, AllParse;
  }

  lemma WorkerJudged(c: Config, book0: Book, worlds: seq<World>, steps: seq<Step>, n: nat, k: nat)
    requires Run(c, worlds, steps) && n < |steps| && Inv(c, book0, worlds[n])
    requires WorkersJudged(c, worlds, n)
    requires k in worlds[n + 1].workers && worlds[n + 1].workers[k].stage.Accepted?
    ensures MayBegin(c, worlds[n + 1], k)
    ensures WasCommitted(worlds, n + 1, worlds[n + 1].workers[k].stage.snapshot)
  {
    hide Enabled, Next, Accepts, Parsed, WasCommitted, LedgerOk, RelayOk, AckedOk, WorkerOk;
    var w, step := worlds[n], steps[n];
    WorkerBefore(c, w, step, k);
    StepGrowsGroup(c, w, step);
    StillCommitted(worlds, n, worlds[n + 1].workers[k].stage.snapshot);
    if step.Judge? && step.worker == k {
      Batched(c, w, k, Fetched);
    }
  }

  /** An open transaction on the auction was open before, under the same call, or has just been
      begun by a worker that was let through. */
  lemma TxBefore(c: Config, w: World, step: Step, a: Uuid, t: nat)
    requires Enabled(c, w, step) && Refinement.Inv(w.ledger)
    requires t in Next(c, w, step).ledger.txs && Next(c, w, step).ledger.txs[t].bid.auctionId == a
    requires step.LedgerStep? && step.step.Begin? ==> step.step.bid.auctionId != a
    ensures var w' := Next(c, w, step);
            if step.Begin? && step.tid == t then
              && Enabled(c, w, step)
              && t in w'.calls
              && w'.calls[t] == Call(w.workers[step.worker].batch[0],
                                     w.workers[step.worker].stage.snapshot)
              && w'.ledger.txs[t].bid == BidAt(c, Current(w, step.worker))
            else
              && t in w.ledger.txs && w.ledger.txs[t].bid == w'.ledger.txs[t].bid
              && (t in w.calls ==> t in w'.calls && w'.calls[t] == w.calls[t])
  {
    hide Transactions.Next, Transactions.Enabled, Outbox.Next, Outbox.Enabled, BidAt, TimeAt, Readable,
         Parsed, Accepts, Refinement.Inv;
    match step
    case LedgerStep(move) => TxsStay(w.ledger, move, t);
    case Begin(k, tid) =>
      TxsStay(w.ledger,
        Transactions.Begin(tid, AntiSnipe, BidAt(c, Current(w, k)), TimeAt(c, Current(w, k))), t);
    case _ =>
  }

  lemma TxIsCalled(c: Config, book0: Book, worlds: seq<World>, steps: seq<Step>, n: nat, a: Uuid, t: nat)
    requires Run(c, worlds, steps) && n < |steps| && Inv(c, book0, worlds[n])
    requires WorkersJudged(c, worlds, n) && TxsCalled(c, worlds, n, a) && OnlyWorkersBegin(steps, a)
    requires t in worlds[n + 1].ledger.txs && worlds[n + 1].ledger.txs[t].bid.auctionId == a
    ensures t in worlds[n + 1].calls
    ensures TxCalled(c, worlds, n + 1, worlds[n + 1].calls[t], worlds[n + 1].ledger.txs[t].bid)
  {
    hide Next, Accepts, Parsed, WasCommitted, Readable, BidAt, RelayOk, AckedOk, WorkerOk, LogOk,
         Refinement.Inv, Refinement.Refines, Snapshots.DistinctIds, Transactions.Enabled, Transactions.Next;
    var w, step := worlds[n], steps[n];
    TxBefore(c, w, step, a, t);
    StepGrowsGroup(c, w, step);
    if step.Begin? && step.tid == t {
      assert TxCalled(c, worlds, n, worlds[n + 1].calls[t], worlds[n + 1].ledger.txs[t].bid);
    }
    CalledStays(c, worlds, n, worlds[n + 1].calls[t], worlds[n + 1].ledger.txs[t].bid);
  }

  /** The bids of the auction that the step has added: at most the one that it commits. */
  lemma StepGrowsBids(c: Config, w: World, step: Step, a: Uuid)
    requires Enabled(c, w, step) && Refinement.Inv(w.ledger) && a in w.ledger.db.auctions
    ensures a in Next(c, w, step).ledger.db.auctions
    ensures Transactions.BidsOf(Next(c, w, step).ledger.db.auctions[a].bids) ==
              Transactions.BidsOf(w.ledger.db.auctions[a].bids)
              + if step.LedgerStep? && InsertingCommit(w.ledger, step.step, a)
                then [w.ledger.txs[step.step.tid].bid] else []
  {
    hide Transactions.Next, Transactions.Enabled, Outbox.Next, Outbox.Enabled, BidAt, TimeAt, Readable,
         Parsed, Accepts, Refinement.Inv, InsertingCommit;
    match step
    case LedgerStep(move) => BidsGrow(w.ledger, move, a);
    case Begin(k, tid) =>
      var move := Transactions.Begin(tid, AntiSnipe, BidAt(c, Current(w, k)), TimeAt(c, Current(w, k)));
      BidsGrow(w.ledger, move, a);
      assert !InsertingCommit(w.ledger, move, a) by {
        NoCommit(w.ledger, move, a);
      }
    case _ =>
  }

  lemma NoCommit(s: Transactions.Sys, step: Transactions.Step, a: Uuid)
    requires step.Begin?
    ensures !InsertingCommit(s, step, a)
  {
  }

  lemma BidIsSourced(c: Config, book0: Book, worlds: seq<World>, steps: seq<Step>, n: nat, a: Uuid, bid: Bid)
    requires Run(c, worlds, steps) && n < |steps| && Inv(c, book0, worlds[n])
    requires Sourced(c, worlds, n, bid) || (TxsCalled(c, worlds, n, a) && steps[n].LedgerStep?
               && InsertingCommit(worlds[n].ledger, steps[n].step, a)
               && bid == worlds[n].ledger.txs[steps[n].step.tid].bid)
    ensures Sourced(c, worlds, n + 1, bid)
  {
    hide Next, Enabled, LetThrough, WasCommitted, LedgerOk, RelayOk, AckedOk, WorkersOk;
    StepGrowsGroup(c, worlds[n], steps[n]);
    assert Sourced(c, worlds, n, bid);
    var call :| TxCalled(c, worlds, n, call, bid);
    CalledStays(c, worlds, n, call, bid);
  }

  lemma NothingBegun(c: Config, worlds: seq<World>, a: Uuid)
    requires worlds != [] && Initial(worlds[0])
    requires a in worlds[0].ledger.db.auctions ==> worlds[0].ledger.db.auctions[a].bids == []
    ensures WorkersJudged(c, worlds, 0) && TxsCalled(c, worlds, 0, a) && BidsSourced(c, worlds, 0, a)
  {
  }

  lemma SourcedStep(c: Config, book0: Book, worlds: seq<World>, steps: seq<Step>, n: nat, a: Uuid)
    requires Run(c, worlds, steps) && n < |steps| && Inv(c, book0, worlds[n])
    requires OnlyWorkersBegin(steps, a) && a in worlds[n].ledger.db.auctions
    requires WorkersJudged(c, worlds, n) && TxsCalled(c, worlds, n, a) && BidsSourced(c, worlds, n, a)
    ensures a in worlds[n + 1].ledger.db.auctions
    ensures WorkersJudged(c, worlds, n + 1) && TxsCalled(c, worlds, n + 1, a)
    ensures BidsSourced(c, worlds, n + 1, a)
  {
    hide Enabled, Next, MayBegin, WasCommitted, Inv, TxCalled, Sourced, InsertingCommit,
         OnlyWorkersBegin;
    var w' := worlds[n + 1];
    forall k | k in w'.workers && w'.workers[k].stage.Accepted?
      ensures MayBegin(c, w', k) && WasCommitted(worlds, n + 1, w'.workers[k].stage.snapshot)
    {
      WorkerJudged(c, book0, worlds, steps, n, k);
    }
    forall t | t in w'.ledger.txs && w'.ledger.txs[t].bid.auctionId == a
      ensures t in w'.calls && TxCalled(c, worlds, n + 1, w'.calls[t], w'.ledger.txs[t].bid)
    {
      TxIsCalled(c, book0, worlds, steps, n, a, t);
    }
    BidsSourcedStep(c, book0, worlds, steps, n, a);
  }

  lemma BidsSourcedStep(c: Config, book0: Book, worlds: seq<World>, steps: seq<Step>, n: nat, a: Uuid)
    requires Run(c, worlds, steps) && n < |steps| && Inv(c, book0, worlds[n])
    requires a in worlds[n].ledger.db.auctions
    requires TxsCalled(c, worlds, n, a) && BidsSourced(c, worlds, n, a)
    ensures a in worlds[n + 1].ledger.db.auctions && BidsSourced(c, worlds, n + 1, a)
  {
    hide Enabled, Next, Sourced, TxsCalled, InsertingCommit, GroupOk, WorkersOk, AckedOk, RelayOk,
         LogOk, Refinement.Inv, Refinement.Refines, Snapshots.DistinctIds;
    StepGrowsBids(c, worlds[n], steps[n], a);
    var rows, rows' := worlds[n].ledger.db.auctions[a].bids, worlds[n + 1].ledger.db.auctions[a].bids;
    forall i | 0 <= i < |rows'| ensures Sourced(c, worlds, n + 1, rows'[i].bid) {
      assert Transactions.BidsOf(rows')[i] == rows'[i].bid;
      if i < |rows| {
        assert Transactions.BidsOf(rows)[i] == rows[i].bid;
        assert Sourced(c, worlds, n, rows[i].bid);
      }
      BidIsSourced(c, book0, worlds, steps, n, a, rows'[i].bid);
    }
  }

  /** No bid comes from nowhere: where only workers begin transactions on an auction that started
      without bids, every bid of its ledger, in every reachable world, is a delivered message that the
      hook let through on a book that was committed then or earlier. */
  lemma {:induction false} BidsComeFromMessages(c: Config, worlds: seq<World>, steps: seq<Step>, n: nat,
                                                a: Uuid)
    requires Run(c, worlds, steps) && Initial(worlds[0]) && n < |worlds| && OnlyWorkersBegin(steps, a)
    requires a in worlds[0].ledger.db.auctions && worlds[0].ledger.db.auctions[a].bids == []
    ensures a in worlds[n].ledger.db.auctions
    ensures WorkersJudged(c, worlds, n) && TxsCalled(c, worlds, n, a) && BidsSourced(c, worlds, n, a)
  {
    hide Enabled, Next, Inv, WorkersJudged, TxsCalled, BidsSourced, OnlyWorkersBegin;
    if n == 0 {
      NothingBegun(c, worlds, a);
    } else {
      BidsComeFromMessages(c, worlds, steps, n - 1, a);
      RunKeepsInv(c, worlds, steps, n - 1);
      SourcedStep(c, Refinement.BookOf(worlds[0].ledger.db), worlds, steps, n - 1, a);
    }
  }

  // ---- Prices with several workers ----

  function BidsIn(w: World, a: Uuid): seq<Bid>
    requires a in w.ledger.db.auctions
  {
    Transactions.BidsOf(w.ledger.db.auctions[a].bids)
  }

  /** When the step commits a new bid of the auction, the price is not above the one on which the
      hook has let its message through. */
  predicate PriceStands(p: Pricing, a: Uuid, w: World, step: Step) {
    step.LedgerStep? && InsertingCommit(w.ledger, step.step, a) && a in w.ledger.db.auctions
    && step.step.tid in w.calls && a in w.calls[step.step.tid].snapshot ==>
      CurrentPrice(p, BidsIn(w, a)) <= CurrentPrice(p, w.calls[step.step.tid].snapshot[a].bids)
  }

  lemma {:induction false} BidsStay(c: Config, worlds: seq<World>, steps: seq<Step>, j: nat, n: nat, a: Uuid)
    requires Run(c, worlds, steps) && Initial(worlds[0]) && j <= n < |worlds|
    requires a in worlds[j].ledger.db.auctions
    ensures a in worlds[n].ledger.db.auctions && BidsIn(worlds[j], a) <= BidsIn(worlds[n], a)
  {
    hide Enabled, Next, GroupOk, WorkersOk, AckedOk, RelayOk, LogOk, Refinement.Inv, Refinement.Refines,
         Snapshots.DistinctIds, InsertingCommit;
    if j < n {
      BidsStay(c, worlds, steps, j, n - 1, a);
      RunKeepsInv(c, worlds, steps, n - 1);
      StepGrowsBids(c, worlds[n - 1], steps[n - 1], a);
    }
  }

  lemma {:induction false} AuctionThere(c: Config, worlds: seq<World>, steps: seq<Step>, n: nat, a: Uuid)
    requires Run(c, worlds, steps) && Initial(worlds[0]) && n < |worlds| && a in worlds[0].ledger.db.auctions
    ensures a in worlds[n].ledger.db.auctions
  {
    BidsStay(c, worlds, steps, 0, n, a);
  }

  /** While there is no bid, every book committed before shows none either. */
  lemma NoBidsBefore(c: Config, worlds: seq<World>, steps: seq<Step>, n: nat, a: Uuid, snapshot: Book)
    requires Run(c, worlds, steps) && Initial(worlds[0]) && n < |worlds|
    requires a in worlds[n].ledger.db.auctions && BidsIn(worlds[n], a) == []
    requires WasCommitted(worlds, n, snapshot) && a in snapshot
    ensures snapshot[a].bids == []
  {
    hide Run, Initial;
    var j: nat :| j <= n && j < |worlds| && CommittedIn(worlds[j], snapshot);
    assert snapshot[a] == Refinement.AuctionOf(worlds[j].ledger.db.auctions[a]);
    BidsStay(c, worlds, steps, j, n, a);
  }

  lemma CommitKeepsLadder(c: Config, p: Pricing, worlds: seq<World>, steps: seq<Step>, n: nat, a: Uuid)
    requires Run(c, worlds, steps) && Initial(worlds[0]) && n < |steps| && UsesHook(c, p, a)
    requires a in worlds[n].ledger.db.auctions && Ladder(p, BidsIn(worlds[n], a))
    requires TxsCalled(c, worlds, n, a) && PriceStands(p, a, worlds[n], steps[n])
    requires steps[n].LedgerStep? && InsertingCommit(worlds[n].ledger, steps[n].step, a)
    ensures Ladder(p, BidsIn(worlds[n], a) + [worlds[n].ledger.txs[steps[n].step.tid].bid])
  {
    hide Enabled, Next, Initial, PassesRules, WasCommitted, Ladder, Parsed;
    var w := worlds[n];
    var call := w.calls[steps[n].step.tid];
    var e := Parsed(w.group.stream[call.position]).value;
    assert TxCalled(c, worlds, n, call, w.ledger.txs[steps[n].step.tid].bid);
    RulesMean(p, call.snapshot[a], e);
    if BidsIn(w, a) == [] {
      NoBidsBefore(c, worlds, steps, n, a, call.snapshot);
    } else {
      LadderPositive(p, BidsIn(w, a));
    }
    LadderGrows(p, BidsIn(w, a), w.ledger.txs[steps[n].step.tid].bid);
  }

  lemma LadderPositive(p: Pricing, bids: seq<Bid>)
    requires Ladder(p, bids) && bids != []
    ensures 0 <= CurrentPrice(p, bids)
  {
    assert bids[..|bids|] == bids;
  }

  /** Prices rise in every run of any number of workers in which, at each commit of a new bid, the
      price is not above the one on which its message was judged: in every world amounts rise by at
      least the increment, the last bid alone is the highest, and no amount overflows. */
  lemma {:induction false} PricesRiseTogether(c: Config, p: Pricing, worlds: seq<World>, steps: seq<Step>,
                                              n: nat, a: Uuid)
    requires Run(c, worlds, steps) && Initial(worlds[0]) && n < |worlds| && UsesHook(c, p, a)
    requires OnlyWorkersBegin(steps, a)
    requires a in worlds[0].ledger.db.auctions && worlds[0].ledger.db.auctions[a].bids == []
    requires forall i :: 0 <= i < |steps| ==> PriceStands(p, a, worlds[i], steps[i])
    ensures a in worlds[n].ledger.db.auctions
    ensures Ladder(p, BidsIn(worlds[n], a)) && PricesClimb(p, BidsIn(worlds[n], a))
  {
    hide Enabled, Next, Inv, WorkersJudged, TxsCalled, BidsSourced, OnlyWorkersBegin, Ladder, PricesClimb,
         PriceStands, InsertingCommit, UsesHook;
    if n == 0 {
      assert BidsIn(worlds[0], a) == [];
      NoLadderYet(p);
    } else {
      PricesRiseTogether(c, p, worlds, steps, n - 1, a);
      BidsComeFromMessages(c, worlds, steps, n - 1, a);
      RunKeepsInv(c, worlds, steps, n - 1);
      InvLedger(c, Refinement.BookOf(worlds[0].ledger.db), worlds[n - 1]);
      StepGrowsBids(c, worlds[n - 1], steps[n - 1], a);
      if steps[n - 1].LedgerStep? && InsertingCommit(worlds[n - 1].ledger, steps[n - 1].step, a) {
        CommitKeepsLadder(c, p, worlds, steps, n - 1, a);
      } else {
        assert BidsIn(worlds[n], a) == BidsIn(worlds[n - 1], a);
      }
    }
    LadderSummary(p, BidsIn(worlds[n], a));
  }

  lemma NoLadderYet(p: Pricing)
    ensures Ladder(p, [])
  {
  }

  lemma InvLedger(c: Config, book0: Book, w: World)
    requires Inv(c, book0, w)
    ensures Refinement.Inv(w.ledger)
  {
  }
}
