/** The abstract ledger: what one append means when nothing runs beside it.

    A bid has no stored sequence number here. Its number is its place in `bids`,
    counted from one, so an abstract ledger cannot have a gap. */
module Ledger {
  import opened Domain

  /** The columns of an auction that no bid ever changes. */
  datatype Terms = Terms(window: Time, interval: Time, maxExtensions: int) {
    /** The CHECK constraints of migrations/000005_anti_snipe.up.sql. */
    predicate Valid() {
      window > 0 && interval > 0 && maxExtensions >= 0
    }
  }

  datatype Auction = Auction(terms: Terms, close: Time, count: int, bids: seq<Bid>)

  datatype Path = AntiSnipe | RowLock

  /** What a call that commits returns. `RowLock` does not look at the auction row. */
  datatype Response =
    | AntiSnipeResponse(seqNo: int, inserted: bool, extended: bool, close: Time, count: int)
    | RowLockResponse(seqNo: int, inserted: bool)

  datatype Refusal = UnknownAuction | AtOrAfterClose | CheckViolated

  predicate HasKey(bids: seq<Bid>, key: Uuid) {
    exists i :: 0 <= i < |bids| && bids[i].key == key
  }

  /** The place of a key's bid. */
  function Find(bids: seq<Bid>, key: Uuid): (i: nat)
    requires HasKey(bids, key)
    ensures i < |bids| && bids[i].key == key
    ensures forall j :: 0 <= j < i ==> bids[j].key != key
  {
    if bids[0].key == key then 0
    else
      assert HasKey(bids[1..], key) by {
        var i :| 0 <= i < |bids| && bids[i].key == key;
        assert bids[1..][i - 1].key == key;
      }
      Find(bids[1..], key) + 1
  }

  /** A bid extends the auction when it arrives inside the window that ends at
      the close, and the allowance is not used up. */
  predicate Extends(a: Auction, at: Time) {
    a.close - a.terms.window <= at < a.close && a.count < a.terms.maxExtensions
  }

  function Extended(a: Auction, at: Time): Auction {
    if Extends(a, at) then a.(close := a.close + a.terms.interval, count := a.count + 1) else a
  }

  /** One append, with what the caller is told. */
  function Append(path: Path, a: Auction, bid: Bid, at: Time): (Auction, Result<Response, Refusal>)
  {
    match path
    case AntiSnipe =>
      if HasKey(a.bids, bid.key) then
        (a, Ok(AntiSnipeResponse(Find(a.bids, bid.key) + 1, false, false, a.close, a.count)))
      else if at >= a.close then
        (a, Err(AtOrAfterClose))
      else if bid.amount <= 0 then
        (a, Err(CheckViolated))
      else
        var a' := Extended(a, at).(bids := a.bids + [bid]);
        (a', Ok(AntiSnipeResponse(|a.bids| + 1, true, Extends(a, at), a'.close, a'.count)))
    case RowLock =>
      if bid.amount <= 0 then
        (a, Err(CheckViolated))
      else if HasKey(a.bids, bid.key) then
        (a, Ok(RowLockResponse(Find(a.bids, bid.key) + 1, false)))
      else
        (a.(bids := a.bids + [bid]), Ok(RowLockResponse(|a.bids| + 1, true)))
  }

  /** What every append does and says, in the columns themselves. Without an error the bid with the
      key stands at the place that the caller is told, counted from one; it was inserted exactly when
      no bid had the key, and then it is the last one; nothing else of the ledger changes. Only the
      anti-snipe path looks at the time. An inserted bid extends the auction exactly when it arrives in
      the window before the close and the allowance is not used up. */
  lemma AppendExact(path: Path, a: Auction, bid: Bid, at: Time)
    ensures var (a', r) := Append(path, a, bid, at);
            var known := exists i :: 0 <= i < |a.bids| && a.bids[i].key == bid.key;
            var inWindow := a.close - a.terms.window <= at < a.close && a.count < a.terms.maxExtensions;
            && a'.terms == a.terms
            && (r.Err? ==> a' == a)
            && (r.Ok? ==>
                  && r.value.AntiSnipeResponse? == path.AntiSnipe?
                  && 1 <= r.value.seqNo <= |a'.bids|
                  && a'.bids[r.value.seqNo - 1].key == bid.key
                  && r.value.inserted == !known
                  && a'.bids == a.bids + (if r.value.inserted then [bid] else [])
                  && (r.value.inserted ==> r.value.seqNo == |a.bids| + 1)
                  && var extended := path.AntiSnipe? && r.value.inserted && inWindow;
                     && a'.close == a.close + (if extended then a.terms.interval else 0)
                     && a'.count == a.count + (if extended then 1 else 0)
                     && (path.AntiSnipe? ==>
                           && r.value.extended == extended
                           && r.value.close == a'.close && r.value.count == a'.count))
            && (r == Err(AtOrAfterClose) <==> path.AntiSnipe? && !known && at >= a.close)
            && (r == Err(CheckViolated) <==>
                  bid.amount <= 0 && (path.AntiSnipe? ==> !known && at < a.close))
            && r != Err(UnknownAuction)
  {
    if HasKey(a.bids, bid.key) {
      var i := Find(a.bids, bid.key);
      assert a.bids[i].key == bid.key;
    }
  }

  /** Every auction's ledger. */
  type Book = map<Uuid, Auction>

  /** The bid's key is in its auction's ledger. */
  predicate HoldsKey(book: Book, bid: Bid) {
    bid.auctionId in book && HasKey(book[bid.auctionId].bids, bid.key)
  }

  /** The identifier and clock reading that PostgreSQL gives a new outbox row. */
  datatype Stamp = Stamp(id: Uuid, createdAt: Time)

  /** A finished call: who asked for what, and what came back. */
  datatype Entry = Entry(
    tid: nat,
    path: Path,
    bid: Bid,
    at: Time,
    result: Result<Response, Refusal>,
    stamp: Stamp)

  function Apply(book: Book, e: Entry): Book {
    if e.bid.auctionId in book
    then book[e.bid.auctionId := Append(e.path, book[e.bid.auctionId], e.bid, e.at).0]
    else book
  }

  /** The book after a history of atomic appends. */
  function Replay(book: Book, log: seq<Entry>): Book {
    if log == [] then book
    else Apply(Replay(book, log[..|log| - 1]), log[|log| - 1])
  }

  /** What the payload of a `BidAccepted` event says; `bid.auctionId` and `seqNo` are the
      aggregate columns. */
  datatype BidAccepted = BidAccepted(
    bid: Bid,
    seqNo: int,
    submittedAt: Time,
    close: Time,
    extended: bool,
    count: int)

  datatype OutboxRow = OutboxRow(stamp: Stamp, event: BidAccepted)

  /** A call announces a bid exactly when it is an anti-snipe call that inserted one. */
  predicate Announces(e: Entry) {
    e.result.Ok? && e.result.value.AntiSnipeResponse? && e.result.value.inserted
  }

  function Announcement(e: Entry): OutboxRow
    requires Announces(e)
  {
    var r := e.result.value;
    OutboxRow(e.stamp, BidAccepted(e.bid, r.seqNo, e.at, r.close, r.extended, r.count))
  }

  /** The outbox that a history leaves. */
  function Outbox(log: seq<Entry>): seq<OutboxRow> {
    if log == [] then []
    else
      var e := log[|log| - 1];
      Outbox(log[..|log| - 1]) + if Announces(e) then [Announcement(e)] else []
  }

  lemma IdAboveAll(outbox: seq<OutboxRow>) returns (id: Uuid)
    ensures forall i :: 0 <= i < |outbox| ==> outbox[i].stamp.id < id
  {
    id := 0;
    for i := 0 to |outbox|
      invariant forall j :: 0 <= j < i ==> outbox[j].stamp.id < id
    {
      id := if outbox[i].stamp.id < id then id else outbox[i].stamp.id + 1;
    }
  }
}
