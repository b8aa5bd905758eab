/** The whole pipeline: any number of workers of one auction's consumer group, the append
    transactions they and anybody else start, and any number of outbox relays, step by step.

    A worker may die between any two steps. Its transaction is then on its own: it may still
    commit. Another worker may claim an entry that a slow worker is busy with, and the slow one
    may acknowledge it all the same: XACK does not ask who owns the entry. */
module Pipeline {
  import opened Domain
  import opened Ledger
  import opened Settlement
  import opened Streams
  import Transactions
  import Refinement
  import Snapshots
  import Outbox

  /** How far a worker has got with the first entry of its batch. `snapshot` is the book on which
      the hook let it through. */
  datatype Stage =
    | Fetched | Accepted(snapshot: Book) | Rejected | Persisting(tid: nat, since: nat) | Persisted

  datatype Worker = Worker(batch: seq<nat>, stage: Stage)

  /** The stream and its consumer group. `pending` maps an entry to its owner. `verdicts` is a
      history: for an entry that the hook turned away, the book it was turned away against. */
  datatype Group = Group(
    stream: seq<Message>,
    delivered: nat,
    pending: map<nat, nat>,
    acked: set<nat>,
    verdicts: map<nat, Book>)

  /** What a worker has begun a transaction for: a message, and the book on which it was let
      through. */
  datatype Call = Call(position: nat, snapshot: Book)

  /** A worker that is not in `workers` is idle, or dead, or not yet started. `calls` is a
      history: the last call that a worker began under each transaction number. */
  datatype World = World(
    ledger: Transactions.Sys,
    group: Group,
    workers: map<nat, Worker>,
    calls: map<nat, Call>,
    relay: Outbox.Sys)

  datatype Step =
    | Arrive(message: Message)
    | Deliver(worker: nat, count: nat, heard: bool)
    | Claim(worker: nat, entries: seq<nat>, heard: bool)
    | Judge(worker: nat, snapshot: Book)
    | Begin(worker: nat, tid: nat)
    | LedgerStep(step: Transactions.Step)
    | Answer(worker: nat, place: nat)
    | Acknowledge(worker: nat)
    | Crash(worker: nat)
    | RelayStep(move: Outbox.Step)

  predicate Busy(w: World, k: nat, stage: Stage) {
    k in w.workers && w.workers[k].stage == stage && w.workers[k].batch != []
    && w.workers[k].batch[0] < |w.group.stream| && Parsed(w.group.stream[w.workers[k].batch[0]]).Ok?
  }

  function Current(w: World, k: nat): Message
    requires k in w.workers && w.workers[k].batch != []
    requires w.workers[k].batch[0] < |w.group.stream|
  {
    w.group.stream[w.workers[k].batch[0]]
  }

  ghost predicate Enabled(c: Config, w: World, step: Step) {
    match step
    case Arrive(_) => true
    case Deliver(k, count, _) =>
      k !in w.workers && count > 0 && w.group.delivered + count <= |w.group.stream|
    case Claim(k, entries, _) =>
      k !in w.workers && entries != [] && Increasing(entries)
      && forall i :: i in entries ==> i in w.group.pending
    case Judge(k, _) => Busy(w, k, Fetched)
    case Begin(k, tid) =>
      && k in w.workers && w.workers[k].stage.Accepted? && Busy(w, k, w.workers[k].stage)
      && Readable(c, Current(w, k))
      && Transactions.Enabled(w.ledger,
           Transactions.Begin(tid, AntiSnipe, BidAt(c, Current(w, k)), TimeAt(c, Current(w, k))))
    case LedgerStep(step) => Transactions.Enabled(w.ledger, step)
    case Answer(k, place) =>
      && k in w.workers && w.workers[k].stage.Persisting? && Busy(w, k, w.workers[k].stage)
      && w.workers[k].stage.since <= place < |w.ledger.log|
      && Answers(c, Current(w, k), w.workers[k].stage.tid, w.ledger.log[place])
    case Acknowledge(k) => Busy(w, k, Rejected) || Busy(w, k, Persisted)
    case Crash(k) => k in w.workers
    case RelayStep(move) => !move.Insert? && Outbox.Enabled(w.relay, move)
  }

  function TimeAt(c: Config, m: Message): Time
    requires Readable(c, m)
  {
    ToBid(c, Parsed(m).value).value.1
  }

  /** The call that worker started for this message has returned without an error. */
  predicate Answers(c: Config, m: Message, tid: nat, e: Entry) {
    Readable(c, m) && e.tid == tid && e.bid == BidAt(c, m) && e.at == TimeAt(c, m) && e.result.Ok?
  }

  /** A reply with a message that does not parse is an error for the whole batch; the entries
      stay pending. */
  function Fetch(w: World, k: nat, entries: seq<nat>, heard: bool): map<nat, Worker> {
    if heard && entries != [] && AllParse(w.group.stream, entries)
    then w.workers[k := Worker(entries, Fetched)] else w.workers
  }

  function Taken(pending: map<nat, nat>, entries: seq<nat>, k: nat): map<nat, nat> {
    map i | i in pending.Keys + (set j | j in entries) :: if i in entries then k else pending[i]
  }

  function Staged(w: World, k: nat, stage: Stage): World
    requires k in w.workers
  {
    w.(workers := w.workers[k := w.workers[k].(stage := stage)])
  }

  /** A commit shows its new outbox row to the relays. */
  function Shown(relay: Outbox.Sys, outbox: seq<OutboxRow>): Outbox.Sys {
    if |outbox| <= |relay.rows| then relay
    else relay.(rows := relay.rows + [Outbox.Row(outbox[|relay.rows|], false, 0)])
  }

  function Next(c: Config, w: World, step: Step): World
    requires Enabled(c, w, step)
  {
    var g := w.group;
    match step
    case Arrive(m) => w.(group := g.(stream := g.stream + [m]))
    case Deliver(k, count, heard) =>
      var entries := Range(g.delivered, g.delivered + count);
      w.(group := g.(delivered := g.delivered + count, pending := Taken(g.pending, entries, k)),
         workers := Fetch(w, k, entries, heard))
    case Claim(k, entries, heard) =>
      w.(group := g.(pending := Taken(g.pending, entries, k)), workers := Fetch(w, k, entries, heard))
    case Judge(k, snapshot) =>
      if Accepts(c, snapshot, Parsed(Current(w, k)).value) then Staged(w, k, Accepted(snapshot))
      else
        Staged(w, k, Rejected)
          .(group := g.(verdicts := g.verdicts[w.workers[k].batch[0] := snapshot]))
    case Begin(k, tid) =>
      Staged(w, k, Persisting(tid, |w.ledger.log|))
        .(ledger := Transactions.Next(w.ledger,
            Transactions.Begin(tid, AntiSnipe, BidAt(c, Current(w, k)), TimeAt(c, Current(w, k)))),
          calls := w.calls[tid := Call(w.workers[k].batch[0], w.workers[k].stage.snapshot)])
    case LedgerStep(step) =>
      var ledger := Transactions.Next(w.ledger, step);
      w.(ledger := ledger, relay := Shown(w.relay, ledger.db.outbox))
    case Answer(k, _) => Staged(w, k, Persisted)
    case Acknowledge(k) =>
      var i, rest := w.workers[k].batch[0], w.workers[k].batch[1..];
      w.(group := g.(pending := g.pending - {i}, acked := g.acked + {i}),
         workers := if rest == [] then w.workers - {k} else w.workers[k := Worker(rest, Fetched)])
    case Crash(k) => w.(workers := w.workers - {k})
    case RelayStep(move) => w.(relay := Outbox.Next(w.relay, move))
  }

  /** The book was committed in the `i`-th world or in an earlier one. */
  ghost predicate WasCommitted(worlds: seq<World>, i: nat, book: Book) {
    exists j: nat :: j <= i && j < |worlds| && CommittedIn(worlds[j], book)
  }

  predicate CommittedIn(w: World, book: Book) {
    Refinement.BookOf(w.ledger.db) == book
  }

  /** The hook judges a snapshot that was committed at some time before. */
  ghost predicate Run(c: Config, worlds: seq<World>, steps: seq<Step>) {
    && |worlds| == |steps| + 1
    && (forall i :: 0 <= i < |steps| ==>
          Enabled(c, worlds[i], steps[i]) && worlds[i + 1] == Next(c, worlds[i], steps[i]))
    && (forall i :: 0 <= i < |steps| && steps[i].Judge? ==> WasCommitted(worlds, i, steps[i].snapshot))
  }

  predicate Initial(w: World) {
    && Transactions.Initial(w.ledger)
    && w.group == Group([], 0, map[], {}, map[])
    && w.workers == map[] && w.calls == map[]
    && w.relay == Outbox.EMPTY
  }

  // ---- The ledger's part ----

  /** The step moves the ledger by `move`. */
  ghost predicate MovesLedger(c: Config, w: World, step: Step, move: Transactions.Step) {
    && Enabled(c, w, step)
    && (step == LedgerStep(move)
        || (step.Begin?
            && move == Transactions.Begin(step.tid, AntiSnipe, BidAt(c, Current(w, step.worker)),
                                          TimeAt(c, Current(w, step.worker)))))
  }

  /** `state` and `move` come from some step of the run. */
  ghost predicate ComesFrom(c: Config, worlds: seq<World>, steps: seq<Step>,
                            state: Transactions.Sys, move: Transactions.Step)
  {
    exists i: nat :: i < |steps| && i < |worlds| && worlds[i].ledger == state
                     && MovesLedger(c, worlds[i], steps[i], move)
  }

  lemma LedgerGoesOn(c: Config, w: World, step: Step)
    requires Enabled(c, w, step)
    ensures Next(c, w, step).ledger == w.ledger
            || exists move :: MovesLedger(c, w, step, move) && Transactions.Enabled(w.ledger, move)
                              && Next(c, w, step).ledger == Transactions.Next(w.ledger, move)
  {
    hide Transactions.Next, Transactions.Enabled, Outbox.Next, Outbox.Enabled, Readable, BidAt, TimeAt,
         Parsed, Accepts;
    match step
    case LedgerStep(move) => assert MovesLedger(c, w, step, move);
    case Begin(k, tid) =>
      assert MovesLedger(c, w, step,
        Transactions.Begin(tid, AntiSnipe, BidAt(c, Current(w, k)), TimeAt(c, Current(w, k))));
    case _ =>
  }

  /** A run of the pipeline holds a run of the ledger: what is proved of every ledger run holds of the
      ledger in every world. */
  lemma {:induction false} LedgerRun(c: Config, worlds: seq<World>, steps: seq<Step>, n: nat)
    returns (states: seq<Transactions.Sys>, moves: seq<Transactions.Step>)
    requires Run(c, worlds, steps) && n < |worlds|
    ensures Transactions.Run(states, moves)
    ensures states[0] == worlds[0].ledger && states[|moves|] == worlds[n].ledger
    ensures forall j :: 0 <= j < |moves| ==> ComesFrom(c, worlds, steps, states[j], moves[j])
  {
    hide Enabled, Next, Transactions.Next, Transactions.Enabled, MovesLedger;
    if n == 0 {
      states, moves := [worlds[0].ledger], [];
    } else {
      states, moves := LedgerRun(c, worlds, steps, n - 1);
      LedgerGoesOn(c, worlds[n - 1], steps[n - 1]);
      if worlds[n].ledger != worlds[n - 1].ledger {
        var move :| MovesLedger(c, worlds[n - 1], steps[n - 1], move)
                    && Transactions.Enabled(worlds[n - 1].ledger, move)
                    && worlds[n].ledger == Transactions.Next(worlds[n - 1].ledger, move);
        assert ComesFrom(c, worlds, steps, worlds[n - 1].ledger, move);
        states, moves := states + [worlds[n].ledger], moves + [move];
      }
    }
  }

  // ---- What every step keeps ----

  /** Conservation: every message of the stream is undelivered, pending or acknowledged. */
  predicate GroupOk(g: Group) {
    && g.delivered <= |g.stream|
    && g.pending.Keys !! g.acked
    && g.pending.Keys + g.acked == Below(g.delivered)
  }

  predicate TurnedAway(c: Config, g: Group, i: nat) {
    && i < |g.stream| && Parsed(g.stream[i]).Ok?
    && i in g.verdicts && !Accepts(c, g.verdicts[i], Parsed(g.stream[i]).value)
  }

  /** The message's key is committed, or the hook has turned the message away. */
  predicate Settled(c: Config, g: Group, db: Transactions.Db, i: nat) {
    i < |g.stream| && (InBook(c, Refinement.BookOf(db), g.stream[i]) || TurnedAway(c, g, i))
  }

  predicate WorkerOk(c: Config, g: Group, db: Transactions.Db, worker: Worker) {
    && worker.batch != []
    && (forall i :: i in worker.batch ==> i < g.delivered)
    && AllParse(g.stream, worker.batch)
    && (worker.stage.Rejected? ==> TurnedAway(c, g, worker.batch[0]))
    && (worker.stage.Persisted? ==> InBook(c, Refinement.BookOf(db), g.stream[worker.batch[0]]))
  }

  /** What was answered is committed. */
  predicate LogOk(ledger: Transactions.Sys) {
    forall k :: 0 <= k < |ledger.log| && ledger.log[k].result.Ok? ==>
      HoldsKey(Refinement.BookOf(ledger.db), ledger.log[k].bid)
  }

  predicate LedgerOk(book0: Book, ledger: Transactions.Sys) {
    && Refinement.Inv(ledger)
    && Refinement.Refines(book0, ledger)
    && Snapshots.DistinctIds(ledger)
    && LogOk(ledger)
  }

  predicate WorkersOk(c: Config, g: Group, db: Transactions.Db, workers: map<nat, Worker>) {
    forall k :: k in workers ==> WorkerOk(c, g, db, workers[k])
  }

  predicate AckedOk(c: Config, g: Group, db: Transactions.Db) {
    forall i :: i in g.acked ==> Settled(c, g, db, i)
  }

  /** The relays see the committed outbox. */
  predicate RelayOk(relay: Outbox.Sys, outbox: seq<OutboxRow>) {
    && Outbox.Inv(relay)
    && |relay.rows| == |outbox|
    && forall i :: 0 <= i < |outbox| ==> relay.rows[i].data == outbox[i]
  }

  predicate Inv(c: Config, book0: Book, w: World) {
    && LedgerOk(book0, w.ledger)
    && GroupOk(w.group)
    && WorkersOk(c, w.group, w.ledger.db, w.workers)
    && AckedOk(c, w.group, w.ledger.db)
    && RelayOk(w.relay, w.ledger.db.outbox)
  }

  // ---- The ledger ----

  /** The committed tables only grow. */
  ghost predicate Grows(db: Transactions.Db, db': Transactions.Db) {
    forall bid: Bid :: HoldsKey(Refinement.BookOf(db), bid) ==> HoldsKey(Refinement.BookOf(db'), bid)
  }

  lemma LedgerGrows(ledger: Transactions.Sys, step: Transactions.Step)
    requires Refinement.Inv(ledger) && Transactions.Enabled(ledger, step)
    ensures Grows(ledger.db, Transactions.Next(ledger, step).db)
  {
    hide Refinement.Inv, Transactions.Enabled, Transactions.Next;
    forall bid: Bid | HoldsKey(Refinement.BookOf(ledger.db), bid)
      ensures HoldsKey(Refinement.BookOf(Transactions.Next(ledger, step).db), bid)
    {
      Snapshots.StepIsLater(ledger, step, bid.auctionId);
      Snapshots.KeptKey(ledger.db.auctions[bid.auctionId].bids,
                        Transactions.Next(ledger, step).db.auctions[bid.auctionId].bids, bid.key);
    }
  }

  lemma AppendHasKey(path: Path, a: Auction, bid: Bid, at: Time)
    requires Append(path, a, bid, at).1.Ok?
    ensures HasKey(Append(path, a, bid, at).0.bids, bid.key)
  {
    if !HasKey(a.bids, bid.key) {
      assert Append(path, a, bid, at).0.bids[|a.bids|] == bid;
    }
  }

  lemma CommitHasKey(db: Transactions.Db, tx: Transactions.Tx, stamp: Stamp)
    requires Refinement.TablesInv(db) && Refinement.TxInv(db, tx)
    requires Transactions.Execute(db, tx, stamp).Commit?
    ensures HoldsKey(Refinement.BookOf(Transactions.Committed(db, tx)), tx.bid)
  {
    hide Append;
    Refinement.CommitIsAppend(db, tx, stamp);
    AppendHasKey(tx.path, Refinement.AuctionOf(db.auctions[tx.bid.auctionId]), tx.bid, tx.at);
  }

  lemma LedgerKeepsLog(ledger: Transactions.Sys, step: Transactions.Step)
    requires Refinement.Inv(ledger) && LogOk(ledger) && Transactions.Enabled(ledger, step)
    ensures LogOk(Transactions.Next(ledger, step))
  {
    hide Transactions.Next, Transactions.Execute, HoldsKey;
    Refinement.StepEffect(ledger, step);
    LedgerGrows(ledger, step);
    if step.Statement? && Transactions.Execute(ledger.db, ledger.txs[step.tid], step.stamp).Commit? {
      CommitHasKey(ledger.db, ledger.txs[step.tid], step.stamp);
    }
  }

  lemma LedgerKeepsOk(book0: Book, ledger: Transactions.Sys, step: Transactions.Step)
    requires LedgerOk(book0, ledger) && Transactions.Enabled(ledger, step)
    ensures LedgerOk(book0, Transactions.Next(ledger, step))
  {
    hide Refinement.Inv, Refinement.Refines, Snapshots.DistinctIds, LogOk, Transactions.Enabled,
         Transactions.Next;
    Refinement.StepKeepsInv(ledger, step);
    Refinement.StepRefines(book0, ledger, step);
    Snapshots.StepKeepsIds(ledger, step);
    LedgerKeepsLog(ledger, step);
  }

  // ---- Workers and acknowledgements ----

  /** The group may have grown and the ledger too. */
  ghost predicate Moves(c: Config, g: Group, db: Transactions.Db, g': Group, db': Transactions.Db) {
    && g.stream <= g'.stream
    && g.delivered <= g'.delivered
    && (forall i: nat :: TurnedAway(c, g, i) ==> TurnedAway(c, g', i))
    && Grows(db, db')
  }

  lemma WorkerStays(c: Config, g: Group, db: Transactions.Db, g': Group, db': Transactions.Db, worker: Worker)
    requires WorkerOk(c, g, db, worker) && Moves(c, g, db, g', db')
    ensures WorkerOk(c, g', db', worker)
  {
    hide Readable, BidAt, HoldsKey, Parsed, TurnedAway;
    assert worker.batch[0] in worker.batch;
  }

  lemma SettledStays(c: Config, g: Group, db: Transactions.Db, g': Group, db': Transactions.Db, i: nat)
    requires Settled(c, g, db, i) && Moves(c, g, db, g', db')
    ensures Settled(c, g', db', i)
  {
    hide Readable, BidAt, HoldsKey, Parsed, TurnedAway;
  }

  lemma AllStay(c: Config, w: World, g': Group, db': Transactions.Db)
    requires WorkersOk(c, w.group, w.ledger.db, w.workers) && AckedOk(c, w.group, w.ledger.db)
    requires Moves(c, w.group, w.ledger.db, g', db') && g'.acked == w.group.acked
    ensures WorkersOk(c, g', db', w.workers) && AckedOk(c, g', db')
  {
    hide WorkerOk, Settled, Moves;
    forall k | k in w.workers ensures WorkerOk(c, g', db', w.workers[k]) {
      WorkerStays(c, w.group, w.ledger.db, g', db', w.workers[k]);
    }
    forall i | i in g'.acked ensures Settled(c, g', db', i) {
      SettledStays(c, w.group, w.ledger.db, g', db', i);
    }
  }

  lemma Batched(c: Config, w: World, k: nat, stage: Stage)
    requires WorkersOk(c, w.group, w.ledger.db, w.workers) && Busy(w, k, stage)
    ensures WorkerOk(c, w.group, w.ledger.db, w.workers[k])
    ensures w.workers[k].batch[0] < w.group.delivered
  {
    assert w.workers[k].batch[0] in w.workers[k].batch;
  }

  lemma NewStage(c: Config, g: Group, db: Transactions.Db, worker: Worker, stage: Stage)
    requires WorkerOk(c, g, db, worker)
    requires stage.Rejected? ==> TurnedAway(c, g, worker.batch[0])
    requires stage.Persisted? ==> InBook(c, Refinement.BookOf(db), g.stream[worker.batch[0]])
    ensures WorkerOk(c, g, db, worker.(stage := stage))
  {
    hide TurnedAway, InBook;
  }

  lemma ArriveKeepsInv(c: Config, book0: Book, w: World, m: Message)
    requires Inv(c, book0, w)
    ensures Inv(c, book0, Next(c, w, Arrive(m)))
  {
    hide LedgerOk, WorkersOk, AckedOk, RelayOk;
    AllStay(c, w, Next(c, w, Arrive(m)).group, w.ledger.db);
  }

  lemma FetchKeepsInv(c: Config, book0: Book, w: World, g: Group, k: nat, entries: seq<nat>, heard: bool)
    requires Inv(c, book0, w) && k !in w.workers && GroupOk(g)
    requires g == w.group.(delivered := g.delivered, pending := g.pending)
    requires w.group.delivered <= g.delivered && forall i :: i in entries ==> i < g.delivered
    ensures Inv(c, book0, w.(group := g, workers := Fetch(w, k, entries, heard)))
  {
    hide LedgerOk, GroupOk, AckedOk, RelayOk, AllParse;
    AllStay(c, w, g, w.ledger.db);
  }

  lemma DeliverKeepsGroup(g: Group, count: nat, k: nat)
    requires GroupOk(g) && g.delivered + count <= |g.stream|
    ensures var entries := Range(g.delivered, g.delivered + count);
            && GroupOk(g.(delivered := g.delivered + count, pending := Taken(g.pending, entries, k)))
            && forall i :: i in entries ==> i < g.delivered + count
  {
    var entries := Range(g.delivered, g.delivered + count);
    var pending := Taken(g.pending, entries, k);
    forall i: nat ensures i in entries <==> g.delivered <= i < g.delivered + count {
      if g.delivered <= i < g.delivered + count {
        assert entries[i - g.delivered] == i;
      }
    }
    assert forall i: nat :: i in pending.Keys + g.acked <==> i in Below(g.delivered + count);
  }

  lemma ClaimKeepsGroup(g: Group, entries: seq<nat>, k: nat)
    requires GroupOk(g) && forall i :: i in entries ==> i in g.pending
    ensures GroupOk(g.(pending := Taken(g.pending, entries, k)))
    ensures forall i :: i in entries ==> i < g.delivered
  {
    assert Taken(g.pending, entries, k).Keys == g.pending.Keys;
    forall i | i in entries ensures i in Below(g.delivered) {
      assert i in g.pending.Keys + g.acked;
    }
  }

  lemma JudgeKeepsInv(c: Config, book0: Book, w: World, k: nat, snapshot: Book)
    requires Inv(c, book0, w) && Enabled(c, w, Judge(k, snapshot))
    ensures Inv(c, book0, Next(c, w, Judge(k, snapshot)))
  {
    hide LedgerOk, RelayOk, WorkerOk, Settled, Accepts, Parsed;
    var w' := Next(c, w, Judge(k, snapshot));
    Batched(c, w, k, Fetched);
    assert Moves(c, w.group, w.ledger.db, w'.group, w.ledger.db);
    AllStay(c, w, w'.group, w.ledger.db);
    NewStage(c, w'.group, w.ledger.db, w.workers[k], w'.workers[k].stage);
  }

  /** The ledger moves and nothing else that matters here does. */
  lemma LedgerMoves(c: Config, book0: Book, w: World, step: Transactions.Step, relay: Outbox.Sys)
    requires Inv(c, book0, w) && Transactions.Enabled(w.ledger, step)
    requires RelayOk(relay, Transactions.Next(w.ledger, step).db.outbox)
    ensures Inv(c, book0, w.(ledger := Transactions.Next(w.ledger, step), relay := relay))
  {
    hide LedgerOk, GroupOk, RelayOk, WorkersOk, AckedOk, Transactions.Enabled, Transactions.Next;
    var ledger := Transactions.Next(w.ledger, step);
    LedgerKeepsOk(book0, w.ledger, step);
    assert Refinement.Inv(w.ledger) by {
      LedgerHasInv(book0, w.ledger);
    }
    LedgerGrows(w.ledger, step);
    AllStay(c, w, w.group, ledger.db);
  }

  lemma LedgerHasInv(book0: Book, ledger: Transactions.Sys)
    requires LedgerOk(book0, ledger)
    ensures Refinement.Inv(ledger) && Snapshots.DistinctIds(ledger)
  {
  }

  lemma BeginKeepsInv(c: Config, book0: Book, w: World, k: nat, tid: nat)
    requires Inv(c, book0, w) && Enabled(c, w, Begin(k, tid))
    ensures Inv(c, book0, Next(c, w, Begin(k, tid)))
  {
    hide LedgerOk, GroupOk, RelayOk, WorkerOk, AckedOk, Refinement.Inv, Transactions.Next;
    var step := Transactions.Begin(tid, AntiSnipe, BidAt(c, Current(w, k)), TimeAt(c, Current(w, k)));
    LedgerHasInv(book0, w.ledger);
    Refinement.StepEffect(w.ledger, step);
    LedgerMoves(c, book0, w, step, w.relay);
    Batched(c, w, k, w.workers[k].stage);
    NewStage(c, w.group, Transactions.Next(w.ledger, step).db, w.workers[k],
             Persisting(tid, |w.ledger.log|));
  }

  /** At most one outbox row appears, with an identifier that no row has. */
  lemma OutboxStep(ledger: Transactions.Sys, step: Transactions.Step)
    requires Refinement.Inv(ledger) && Snapshots.DistinctIds(ledger)
    requires Transactions.Enabled(ledger, step)
    ensures var before, after := ledger.db.outbox, Transactions.Next(ledger, step).db.outbox;
            before == after
            || (|after| == |before| + 1 && after[..|before|] == before
                && forall i :: 0 <= i < |before| ==> before[i].stamp.id != after[|before|].stamp.id)
  {
    hide Refinement.Inv, Transactions.Execute, Transactions.Next;
    Refinement.StepEffect(ledger, step);
  }

  lemma ShownKeepsRelay(relay: Outbox.Sys, before: seq<OutboxRow>, after: seq<OutboxRow>)
    requires RelayOk(relay, before)
    requires before == after
             || (|after| == |before| + 1 && after[..|before|] == before
                 && forall i :: 0 <= i < |before| ==> before[i].stamp.id != after[|before|].stamp.id)
    ensures RelayOk(Shown(relay, after), after)
    ensures before != after ==>
              && Outbox.Enabled(relay, Outbox.Insert(after[|before|]))
              && Shown(relay, after) == Outbox.Next(relay, Outbox.Insert(after[|before|]))
  {
    hide Outbox.Inv;
    if before != after {
      var insert := Outbox.Insert(after[|before|]);
      assert Outbox.Enabled(relay, insert);
      assert Shown(relay, after) == Outbox.Next(relay, insert);
      Outbox.StepKeepsInv(relay, insert);
      forall i | 0 <= i < |before| ensures after[i] == before[i] {
        assert after[..|before|][i] == after[i];
      }
    }
  }

  lemma LedgerStepKeepsInv(c: Config, book0: Book, w: World, step: Transactions.Step)
    requires Inv(c, book0, w) && Transactions.Enabled(w.ledger, step)
    ensures Inv(c, book0, Next(c, w, LedgerStep(step)))
  {
    hide LedgerOk, GroupOk, RelayOk, WorkersOk, AckedOk, Transactions.Enabled, Transactions.Next,
         Refinement.Inv, Snapshots.DistinctIds, Shown;
    var after := Transactions.Next(w.ledger, step).db.outbox;
    LedgerHasInv(book0, w.ledger);
    OutboxStep(w.ledger, step);
    ShownKeepsRelay(w.relay, w.ledger.db.outbox, after);
    LedgerMoves(c, book0, w, step, Shown(w.relay, after));
  }

  lemma AnswerKeepsInv(c: Config, book0: Book, w: World, k: nat, place: nat)
    requires Inv(c, book0, w) && Enabled(c, w, Answer(k, place))
    ensures Inv(c, book0, Next(c, w, Answer(k, place)))
  {
    hide GroupOk, RelayOk, WorkerOk, AckedOk, Refinement.Inv, Refinement.Refines,
         Snapshots.DistinctIds, HoldsKey, Readable, BidAt, TimeAt, Parsed;
    Batched(c, w, k, w.workers[k].stage);
    assert InBook(c, Refinement.BookOf(w.ledger.db), Current(w, k));
    NewStage(c, w.group, w.ledger.db, w.workers[k], Persisted);
  }

  /** What a worker is about to acknowledge is settled. */
  lemma AcknowledgesSettled(c: Config, w: World, k: nat)
    requires WorkersOk(c, w.group, w.ledger.db, w.workers) && Enabled(c, w, Acknowledge(k))
    ensures w.workers[k].batch[0] < w.group.delivered
    ensures Settled(c, w.group, w.ledger.db, w.workers[k].batch[0])
  {
    hide InBook, TurnedAway;
    Batched(c, w, k, w.workers[k].stage);
  }

  lemma RestOk(c: Config, g: Group, db: Transactions.Db, worker: Worker)
    requires WorkerOk(c, g, db, worker) && |worker.batch| > 1
    ensures WorkerOk(c, g, db, Worker(worker.batch[1..], Fetched))
  {
    var rest := worker.batch[1..];
    forall j | 0 <= j < |rest| ensures rest[j] < |g.stream| && Parsed(g.stream[rest[j]]).Ok? {
      assert rest[j] == worker.batch[j + 1];
    }
    forall i | i in rest ensures i < g.delivered {
      assert i in worker.batch;
    }
  }

  lemma AcknowledgeKeepsInv(c: Config, book0: Book, w: World, k: nat)
    requires Inv(c, book0, w) && Enabled(c, w, Acknowledge(k))
    ensures Inv(c, book0, Next(c, w, Acknowledge(k)))
  {
    hide LedgerOk, RelayOk, Settled, WorkerOk, GroupOk;
    var w' := Next(c, w, Acknowledge(k));
    AcknowledgesSettled(c, w, k);
    AckKeepsGroup(w.group, w.workers[k].batch[0]);
    var same := w'.group.(acked := w.group.acked);
    assert Grows(w.ledger.db, w.ledger.db);
    assert forall i: nat :: TurnedAway(c, w.group, i) <==> TurnedAway(c, w'.group, i);
    forall i: nat | Settled(c, w.group, w.ledger.db, i) ensures Settled(c, w'.group, w.ledger.db, i) {
      SettledStays(c, w.group, w.ledger.db, w'.group, w.ledger.db, i);
    }
    forall j | j in w.workers ensures WorkerOk(c, w'.group, w.ledger.db, w.workers[j]) {
      WorkerStays(c, w.group, w.ledger.db, w'.group, w.ledger.db, w.workers[j]);
    }
    if |w.workers[k].batch| > 1 {
      RestOk(c, w'.group, w.ledger.db, w.workers[k]);
    }
  }

  lemma AckKeepsGroup(g: Group, i: nat)
    requires GroupOk(g) && i < g.delivered
    ensures GroupOk(g.(pending := g.pending - {i}, acked := g.acked + {i}))
  {
    assert i in g.pending.Keys + g.acked;
  }

  lemma CrashKeepsInv(c: Config, book0: Book, w: World, k: nat)
    requires Inv(c, book0, w)
    ensures Inv(c, book0, w.(workers := w.workers - {k}))
  {
    hide LedgerOk, RelayOk, WorkerOk, AckedOk, GroupOk;
  }

  lemma RelayMoves(relay: Outbox.Sys, outbox: seq<OutboxRow>, move: Outbox.Step)
    requires RelayOk(relay, outbox) && !move.Insert? && Outbox.Enabled(relay, move)
    ensures RelayOk(Outbox.Next(relay, move), outbox)
  {
    hide Outbox.Inv;
    Outbox.StepKeepsInv(relay, move);
  }

  lemma RelayKeepsInv(c: Config, book0: Book, w: World, move: Outbox.Step)
    requires Inv(c, book0, w) && Enabled(c, w, RelayStep(move))
    ensures Inv(c, book0, Next(c, w, RelayStep(move)))
  {
    hide LedgerOk, RelayOk, WorkersOk, AckedOk, GroupOk, Outbox.Enabled, Outbox.Next;
    RelayMoves(w.relay, w.ledger.db.outbox, move);
  }

  lemma StepKeepsInv(c: Config, book0: Book, w: World, step: Step)
    requires Inv(c, book0, w) && Enabled(c, w, step)
    ensures Inv(c, book0, Next(c, w, step))
  {
    match step
    case Arrive(m) =>
      ArriveKeepsInv(c, book0, w, m);
    case Deliver(k, count, heard) =>
      DeliverKeepsInv(c, book0, w, k, count, heard);
    case Claim(k, entries, heard) =>
      ClaimKeepsInv(c, book0, w, k, entries, heard);
    case Judge(k, snapshot) =>
      JudgeKeepsInv(c, book0, w, k, snapshot);
    case Begin(k, tid) =>
      BeginKeepsInv(c, book0, w, k, tid);
    case LedgerStep(inner) =>
      LedgerStepKeepsInv(c, book0, w, inner);
    case Answer(k, place) =>
      AnswerKeepsInv(c, book0, w, k, place);
    case Acknowledge(k) =>
      AcknowledgeKeepsInv(c, book0, w, k);
    case Crash(k) =>
      CrashKeepsInv(c, book0, w, k);
    case RelayStep(move) =>
      RelayKeepsInv(c, book0, w, move);
  }

  lemma DeliverKeepsInv(c: Config, book0: Book, w: World, k: nat, count: nat, heard: bool)
    requires Inv(c, book0, w) && Enabled(c, w, Deliver(k, count, heard))
    ensures Inv(c, book0, Next(c, w, Deliver(k, count, heard)))
  {
    hide Inv, GroupOk, Taken, Fetch, Range;
    assert GroupOk(w.group) by {
      InvGroup(c, book0, w);
    }
    DeliverKeepsGroup(w.group, count, k);
    FetchKeepsInv(c, book0, w, Next(c, w, Deliver(k, count, heard)).group, k,
                  Range(w.group.delivered, w.group.delivered + count), heard);
  }

  lemma ClaimKeepsInv(c: Config, book0: Book, w: World, k: nat, entries: seq<nat>, heard: bool)
    requires Inv(c, book0, w) && Enabled(c, w, Claim(k, entries, heard))
    ensures Inv(c, book0, Next(c, w, Claim(k, entries, heard)))
  {
    hide Inv, GroupOk, Taken, Fetch;
    assert GroupOk(w.group) by {
      InvGroup(c, book0, w);
    }
    ClaimKeepsGroup(w.group, entries, k);
    FetchKeepsInv(c, book0, w, Next(c, w, Claim(k, entries, heard)).group, k, entries, heard);
  }

  lemma InvGroup(c: Config, book0: Book, w: World)
    requires Inv(c, book0, w)
    ensures GroupOk(w.group)
  {
  }

  lemma InitialInv(c: Config, w: World)
    requires Initial(w)
    ensures Inv(c, Refinement.BookOf(w.ledger.db), w)
  {
  }

  lemma {:induction false} RunKeepsInv(c: Config, worlds: seq<World>, steps: seq<Step>, n: nat)
    requires Run(c, worlds, steps) && Initial(worlds[0]) && n < |worlds|
    ensures Inv(c, Refinement.BookOf(worlds[0].ledger.db), worlds[n])
  {
    hide Inv, Enabled, Next, Initial;
    if n > 0 {
      RunKeepsInv(c, worlds, steps, n - 1);
      StepKeepsInv(c, Refinement.BookOf(worlds[0].ledger.db), worlds[n - 1], steps[n - 1]);
    } else {
      InitialInv(c, worlds[0]);
    }
  }

  /** A bid with the message's key is in the ledger, or the hook has said no to the message. */
  predicate AckBacked(c: Config, book: Book, g: Group, i: nat) {
    && i < |g.stream|
    && (InBook(c, book, g.stream[i])
        || (Parsed(g.stream[i]).Ok? && i in g.verdicts
            && !Accepts(c, g.verdicts[i], Parsed(g.stream[i]).value)))
  }

  lemma BackedAcks(c: Config, g: Group, db: Transactions.Db)
    requires GroupOk(g) && AckedOk(c, g, db)
    ensures g.delivered <= |g.stream|
    ensures forall i: nat :: i < g.delivered <==> i in g.pending || i in g.acked
    ensures forall i :: i in g.acked ==> i !in g.pending
    ensures forall i :: i in g.acked ==> AckBacked(c, Refinement.BookOf(db), g, i)
  {
    hide InBook, Parsed, Accepts, Refinement.BookOf;
    forall i: nat ensures i < g.delivered <==> i in g.pending || i in g.acked {
      assert i in Below(g.delivered) <==> i in g.pending.Keys + g.acked;
    }
    forall i | i in g.acked ensures AckBacked(c, Refinement.BookOf(db), g, i) {
      assert Settled(c, g, db, i);
    }
  }

  lemma VerdictAppears(c: Config, w: World, step: Step, i: nat)
    requires Enabled(c, w, step) && i in Next(c, w, step).group.verdicts
    ensures (i in w.group.verdicts && w.group.verdicts[i] == Next(c, w, step).group.verdicts[i])
            || (step.Judge? && step.snapshot == Next(c, w, step).group.verdicts[i])
  {
    hide Transactions.Next, Transactions.Enabled, Outbox.Next, Outbox.Enabled, Readable, BidAt, Parsed;
  }

  lemma {:induction false} VerdictsWereCommitted(c: Config, worlds: seq<World>, steps: seq<Step>, n: nat)
    requires Run(c, worlds, steps) && Initial(worlds[0]) && n < |worlds|
    ensures forall i :: i in worlds[n].group.verdicts ==>
              WasCommitted(worlds, n, worlds[n].group.verdicts[i])
  {
    hide Enabled, Next, CommittedIn;
    if n > 0 {
      VerdictsWereCommitted(c, worlds, steps, n - 1);
      forall i | i in worlds[n].group.verdicts
        ensures WasCommitted(worlds, n, worlds[n].group.verdicts[i])
      {
        VerdictAppears(c, worlds[n - 1], steps[n - 1], i);
        assert WasCommitted(worlds, n - 1, worlds[n].group.verdicts[i]);
      }
    }
  }

  /** Commit before ack, and conservation, in every reachable world. Undelivered, pending and
      acknowledged messages make up the stream without overlap. Behind every acknowledged one
      stands a committed bid with its key, or a verdict of the hook against it, given on a book that
      was committed then or earlier; and the same was so already before the acknowledgement was
      sent. */
  lemma CommitBeforeAck(c: Config, worlds: seq<World>, steps: seq<Step>, n: nat)
    requires Run(c, worlds, steps) && Initial(worlds[0]) && n < |worlds|
    ensures GroupOk(worlds[n].group)
    ensures AckedOk(c, worlds[n].group, worlds[n].ledger.db)
    ensures var g := worlds[n].group;
            && g.delivered <= |g.stream|
            && (forall i: nat :: i < g.delivered <==> i in g.pending || i in g.acked)
            && (forall i :: i in g.acked ==> i !in g.pending)
    ensures forall i :: i in worlds[n].group.acked ==>
              AckBacked(c, Refinement.BookOf(worlds[n].ledger.db), worlds[n].group, i)
    ensures forall i :: i in worlds[n].group.verdicts ==>
              WasCommitted(worlds, n, worlds[n].group.verdicts[i])
    ensures n < |steps| && steps[n].Acknowledge? ==>
              Settled(c, worlds[n].group, worlds[n].ledger.db,
                      worlds[n].workers[steps[n].worker].batch[0])
  {
    hide Settled, GroupOk, LedgerOk, RelayOk, WorkerOk, Next, WasCommitted, AckBacked, AckedOk;
    RunKeepsInv(c, worlds, steps, n);
    BackedAcks(c, worlds[n].group, worlds[n].ledger.db);
    VerdictsWereCommitted(c, worlds, steps, n);
    if n < |steps| && steps[n].Acknowledge? {
      AcknowledgesSettled(c, worlds[n], steps[n].worker);
    }
  }
}
