/** The two append transactions, statement by statement, with any number of them
    in flight.

    A statement sees committed rows and its own transaction's writes (READ COMMITTED).
    Writes stay private until the commit installs them. Row locks last until the transaction
    ends, and a transaction may end between any two statements. `FOR UPDATE` locks are exclusive.
    An INSERT into `auction_sequences` or `bids` ends with the check of its foreign key, which
    takes the auction row `FOR KEY SHARE`: many may, but not while another transaction has it
    `FOR UPDATE`. The inserted row is there, uncommitted, while the check waits. */
module Transactions {
  import opened Domain
  import opened Ledger

  datatype BidRow = BidRow(seqNo: int, bid: Bid)

  /** The rows of `auctions`, `auction_sequences` and `bids` that carry one auction's
      identifier. Before the first bid there may be no `auction_sequences` row. */
  datatype Tables = Tables(
    terms: Terms,
    close: Time,
    count: int,
    counter: Option<int>,
    bids: seq<BidRow>)

  datatype Db = Db(auctions: map<Uuid, Tables>, outbox: seq<OutboxRow>)

  /** The statement that a transaction runs next. `CheckCounter` and `CheckBid` are the foreign-key
      checks that end the two inserts. */
  datatype Pc =
    | LockAuction | FindKey | EnsureCounter | CheckCounter | LockCounter | InsertBid | CheckBid
    | FindExisting | AdvanceCounter | Extend | InsertEvent | CommitReplay | CommitDuplicate | CommitInsert

  datatype Writes = Writes(
    counter: Option<int>,
    bid: Option<BidRow>,
    extension: Option<(Time, int)>,
    event: Option<OutboxRow>)

  const NO_WRITES := Writes(None, None, None, None)

  /** A transaction: its request, the caller's local variables, its private writes, and whether it
      has its auction's row locked `FOR KEY SHARE`. */
  datatype Tx = Tx(
    path: Path,
    bid: Bid,
    at: Time,
    pc: Pc,
    close: Time,
    count: int,
    lastSeq: int,
    found: int,
    writes: Writes,
    shares: bool)

  function BidsOf(rows: seq<BidRow>): (bids: seq<Bid>)
    ensures |bids| == |rows|
    ensures forall i :: 0 <= i < |rows| ==> bids[i] == rows[i].bid
  {
    seq(|rows|, i requires 0 <= i < |rows| => rows[i].bid)
  }

  function FoundSeqNo(rows: seq<BidRow>, key: Uuid): int
    requires HasKey(BidsOf(rows), key)
  {
    rows[Find(BidsOf(rows), key)].seqNo
  }

  /** What a statement does to its own transaction. `Broken` is a statement that the
      callers treat as impossible, such as an update that touches no row. */
  datatype Effect = Continue(tx: Tx) | Refuse(refusal: Refusal) | Broken | Commit

  function Begun(path: Path, bid: Bid, at: Time): Tx {
    Tx(path, bid, at, if path.AntiSnipe? then LockAuction else EnsureCounter, 0, 0, 0, 0, NO_WRITES,
       false)
  }

  /** The counter row as the transaction itself sees it. */
  function VisibleCounter(t: Tables, tx: Tx): Option<int> {
    if tx.writes.counter.Some? then tx.writes.counter else t.counter
  }

  function NewClose(tx: Tx): Time {
    if tx.writes.extension.Some? then tx.writes.extension.value.0 else tx.close
  }

  function NewCount(tx: Tx): int {
    if tx.writes.extension.Some? then tx.writes.extension.value.1 else tx.count
  }

  /** The next statement, run when nothing blocks it. */
  function Execute(db: Db, tx: Tx, stamp: Stamp): Effect {
    var a := tx.bid.auctionId;
    if a !in db.auctions then
      // No auction row to lock; for the row-lock path, a foreign-key error.
      Refuse(UnknownAuction)
    else
      var t := db.auctions[a];
      var bids := BidsOf(t.bids);
      match tx.pc
      case LockAuction =>
        Continue(tx.(close := t.close, count := t.count, pc := FindKey))
      case FindKey =>
        if HasKey(bids, tx.bid.key) then
          Continue(tx.(found := FoundSeqNo(t.bids, tx.bid.key), pc := CommitReplay))
        else if tx.at >= tx.close then
          Refuse(AtOrAfterClose)
        else
          Continue(tx.(pc := EnsureCounter))
      case EnsureCounter =>
        if t.counter.None?
        then Continue(tx.(writes := tx.writes.(counter := Some(0)), pc := CheckCounter))
        else Continue(tx.(pc := LockCounter))
      case CheckCounter =>
        Continue(tx.(shares := true, pc := LockCounter))
      case LockCounter =>
        var counter := VisibleCounter(t, tx);
        if counter.None? then Broken else Continue(tx.(lastSeq := counter.value, pc := InsertBid))
      case InsertBid =>
        if tx.bid.amount <= 0 then
          Refuse(CheckViolated)
        else if HasKey(bids, tx.bid.key) then
          Continue(tx.(pc := FindExisting))
        else
          Continue(tx.(writes := tx.writes.(bid := Some(BidRow(tx.lastSeq + 1, tx.bid))),
                       pc := CheckBid))
      case CheckBid =>
        Continue(tx.(shares := true, pc := AdvanceCounter))
      case FindExisting =>
        if HasKey(bids, tx.bid.key)
        then Continue(tx.(found := FoundSeqNo(t.bids, tx.bid.key), pc := CommitDuplicate))
        else Broken
      case AdvanceCounter =>
        if VisibleCounter(t, tx) == Some(tx.lastSeq)
        then Continue(tx.(writes := tx.writes.(counter := Some(tx.lastSeq + 1)),
                          pc := if tx.path.AntiSnipe? then Extend else CommitInsert))
        else Broken
      case Extend =>
        if t.close - t.terms.window <= tx.at < t.close && t.count < t.terms.maxExtensions
        then Continue(tx.(writes := tx.writes.(
                            extension := Some((t.close + t.terms.interval, t.count + 1))),
                          pc := InsertEvent))
        else Continue(tx.(pc := InsertEvent))
      case InsertEvent =>
        if tx.writes.bid.None? then Broken
        else
          var event := BidAccepted(tx.bid, tx.writes.bid.value.seqNo, tx.at,
                                   NewClose(tx), tx.writes.extension.Some?, NewCount(tx));
          Continue(tx.(writes := tx.writes.(event := Some(OutboxRow(stamp, event))),
                       pc := CommitInsert))
      case CommitReplay => Commit
      case CommitDuplicate => Commit
      case CommitInsert => Commit
  }

  /** What the caller is told after the commit, from its local variables. */
  function ResponseOf(tx: Tx): Response {
    if tx.writes.bid.None? then
      match tx.path
      case AntiSnipe => AntiSnipeResponse(tx.found, false, false, tx.close, tx.count)
      case RowLock => RowLockResponse(tx.found, false)
    else
      match tx.path
      case AntiSnipe =>
        AntiSnipeResponse(tx.writes.bid.value.seqNo, true, tx.writes.extension.Some?,
                          NewClose(tx), NewCount(tx))
      case RowLock => RowLockResponse(tx.writes.bid.value.seqNo, true)
  }

  /** A commit installs the private writes row by row over what is committed by then. */
  function Install(t: Tables, w: Writes): Tables {
    Tables(
      t.terms,
      if w.extension.Some? then w.extension.value.0 else t.close,
      if w.extension.Some? then w.extension.value.1 else t.count,
      if w.counter.Some? then w.counter else t.counter,
      if w.bid.Some? then t.bids + [w.bid.value] else t.bids)
  }

  function Committed(db: Db, tx: Tx): Db
    requires tx.bid.auctionId in db.auctions
  {
    Db(db.auctions[tx.bid.auctionId := Install(db.auctions[tx.bid.auctionId], tx.writes)],
       if tx.writes.event.Some? then db.outbox + [tx.writes.event.value] else db.outbox)
  }

  /** The whole system. `log` is a history of the calls that have returned. */
  datatype Sys = Sys(
    db: Db,
    txs: map<nat, Tx>,
    auctionLocks: map<Uuid, nat>,
    counterLocks: map<Uuid, nat>,
    log: seq<Entry>)

  /** `t` cannot run its next statement before `u` ends: it wants a row in a mode that conflicts
      with how `u` has locked it, or a unique key that `u` has inserted and not committed. */
  predicate WaitsFor(s: Sys, t: nat, u: nat) {
    && t in s.txs && u in s.txs && t != u
    && var tx := s.txs[t];
       var a := tx.bid.auctionId;
       || (tx.pc.LockAuction? && a in s.auctionLocks && s.auctionLocks[a] == u)
       || (tx.pc.LockAuction? && s.txs[u].bid.auctionId == a && s.txs[u].shares)
       || ((tx.pc.CheckCounter? || tx.pc.CheckBid?) && a in s.auctionLocks && s.auctionLocks[a] == u)
       || (tx.pc.LockCounter? && a in s.counterLocks && s.counterLocks[a] == u)
       || (tx.pc.EnsureCounter? && a in s.db.auctions && s.db.auctions[a].counter.None?
           && a in s.counterLocks && s.counterLocks[a] == u)
       || (tx.pc.InsertBid? && s.txs[u].writes.bid.Some? && s.txs[u].bid.auctionId == a
           && s.txs[u].bid.key == tx.bid.key)
  }

  ghost predicate Blocked(s: Sys, t: nat) {
    exists u :: WaitsFor(s, t, u)
  }

  datatype Step =
    | Begin(tid: nat, path: Path, bid: Bid, at: Time)
    | Statement(tid: nat, stamp: Stamp)
    | Rollback(tid: nat)

  /** Outbox identifiers are a primary key, filled by `gen_random_uuid()`. */
  ghost predicate FreshId(s: Sys, id: Uuid) {
    && (forall i :: 0 <= i < |s.db.outbox| ==> s.db.outbox[i].stamp.id != id)
    && (forall t :: t in s.txs && s.txs[t].writes.event.Some?
                    ==> s.txs[t].writes.event.value.stamp.id != id)
  }

  ghost predicate Enabled(s: Sys, step: Step) {
    match step
    case Begin(tid, path, bid, at) => tid !in s.txs && (path.AntiSnipe? ==> at != ZERO_TIME)
    case Rollback(tid) => tid in s.txs
    case Statement(tid, stamp) =>
      tid in s.txs && !Blocked(s, tid)
      && (s.txs[tid].pc.InsertEvent? ==> FreshId(s, stamp.id))
  }

  function Released(locks: map<Uuid, nat>, tid: nat): map<Uuid, nat> {
    map a | a in locks && locks[a] != tid :: locks[a]
  }

  function Ended(s: Sys, tid: nat): Sys {
    s.(txs := s.txs - {tid},
       auctionLocks := Released(s.auctionLocks, tid),
       counterLocks := Released(s.counterLocks, tid))
  }

  function EntryOf(tid: nat, tx: Tx, result: Result<Response, Refusal>): Entry {
    Entry(tid, tx.path, tx.bid, tx.at, result,
          if tx.writes.event.Some? then tx.writes.event.value.stamp else Stamp(0, 0))
  }

  function Next(s: Sys, step: Step): Sys
    requires Enabled(s, step)
  {
    match step
    case Begin(tid, path, bid, at) => s.(txs := s.txs[tid := Begun(path, bid, at)])
    case Rollback(tid) => Ended(s, tid)
    case Statement(tid, stamp) =>
      var tx := s.txs[tid];
      var a := tx.bid.auctionId;
      match Execute(s.db, tx, stamp)
      case Continue(tx') =>
        var insertsCounter := tx.pc.EnsureCounter? && tx'.writes.counter.Some?;
        s.(txs := s.txs[tid := tx'],
           auctionLocks := if tx.pc.LockAuction? then s.auctionLocks[a := tid] else s.auctionLocks,
           counterLocks := if tx.pc.LockCounter? || insertsCounter
                           then s.counterLocks[a := tid] else s.counterLocks)
      case Refuse(refusal) =>
        Ended(s, tid).(log := s.log + [EntryOf(tid, tx, Err(refusal))])
      case Broken => Ended(s, tid)
      case Commit =>
        if a in s.db.auctions
        then Ended(s, tid).(db := Committed(s.db, tx),
                            log := s.log + [EntryOf(tid, tx, Ok(ResponseOf(tx)))])
        else Ended(s, tid)
  }

  /** A run: states joined by enabled steps. */
  ghost predicate Run(states: seq<Sys>, steps: seq<Step>) {
    && |states| == |steps| + 1
    && forall i :: 0 <= i < |steps| ==>
         Enabled(states[i], steps[i]) && states[i + 1] == Next(states[i], steps[i])
  }

  /** Nothing in flight and nothing recorded yet; any well-formed committed tables. */
  predicate Initial(s: Sys) {
    && s.txs == map[] && s.auctionLocks == map[] && s.counterLocks == map[] && s.log == []
    && s.db.outbox == []
    && forall a :: a in s.db.auctions ==> WellFormed(s.db.auctions[a])
  }

  /** Row `i` carries number `i + 1`, no key repeats, and the counter, once there is one,
      counts the rows. */
  predicate WellFormed(t: Tables) {
    && t.terms.Valid()
    && Numbered(t.bids)
    && DistinctKeys(BidsOf(t.bids))
    && (t.counter.Some? ==> t.counter.value == |t.bids|)
    && (t.counter.None? ==> t.bids == [])
  }

  predicate Numbered(rows: seq<BidRow>) {
    forall i :: 0 <= i < |rows| ==> rows[i].seqNo == i + 1
  }

  predicate DistinctKeys(bids: seq<Bid>) {
    forall i, j :: 0 <= i < j < |bids| ==> bids[i].key != bids[j].key
  }
}
