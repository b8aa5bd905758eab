/** Concrete runs of the pipeline that show what it does not promise. */
module Witnesses {
  import opened Domain
  import opened Ledger
  import opened StreamId
  import opened StreamFields
  import opened Settlement
  import opened Streams
  import opened Prices
  import opened Pipeline
  import opened Runs
  import Decimal
  import Transactions
  import Refinement
  import Outbox

  /** Everybody is registered; the opening price is 0 and the increment 10. */
  const PRICING := Pricing(0, 10, (bidder: string) => true)

  /** Identifiers are read by their lengths. */
  function Consumers(): Config {
    Config("a", (s: string) => Some(|s|), Some(Hook(PRICING, 1)))
  }

  const TERMS := Terms(1, 1, 0)

  /** Auction 1, open until 1000, with no bids. */
  const START := World(
    Transactions.Sys(
      Transactions.Db(map[1 := Transactions.Tables(TERMS, 1000, 0, None, [])], []),
      map[], map[], map[], []),
    Group([], 0, map[], {}, map[]),
    map[],
    map[],
    Outbox.EMPTY)

  function Ingress(key: string, amount: Int64): BidIngress {
    BidIngress("a", "b", amount, key, "c")
  }

  function Sent(ms: nat, key: string, amount: Int64): Message
    requires amount > 0 && key != ""
  {
    Message(Format(ms, 0), IngressFields(Ingress(key, amount)).value)
  }

  function BidOf(ms: nat, key: string, amount: Int64): Bid {
    Bid(1, 1, amount, |key|, Format(ms, 0), "c")
  }

  lemma SentReads(ms: nat, key: string, amount: Int64)
    requires amount > 0 && key != "" && ms <= MAX_INT64
    ensures var m := Sent(ms, key, amount);
            && Parsed(m) == Ok(StreamEntry(Format(ms, 0), Ingress(key, amount)))
            && Readable(Consumers(), m)
            && BidAt(Consumers(), m) == BidOf(ms, key, amount) && TimeAt(Consumers(), m) == ms
  {
    hide ParseMessage, StreamEntryTime;
    var m := Sent(ms, key, amount);
    FormatRoundTrip(ms, 0);
    assert m.id != "" by {
      hide Decimal.Print;
    }
    IngressRoundTrip(Ingress(key, amount), m.id, map[]);
    assert map[] + m.fields == m.fields;
  }

  function AuctionWith(bids: seq<Bid>): Auction {
    Auction(TERMS, 1000, 0, bids)
  }

  function BookWith(bids: seq<Bid>): Book {
    map[1 := AuctionWith(bids)]
  }

  /** What the hook says about a message that is on time. */
  lemma HookSays(ms: nat, key: string, amount: Int64, bids: seq<Bid>)
    requires amount > 0 && key != "" && ms < 998
    requires bids == [] || 0 <= bids[|bids| - 1].amount <= 1000
    ensures Parsed(Sent(ms, key, amount)).Ok?
    ensures Accepts(Consumers(), BookWith(bids), Parsed(Sent(ms, key, amount)).value) <==>
              CurrentPrice(PRICING, bids) + 10 <= amount
  {
    hide Parsed, StreamEntryTime, IngressFields;
    SentReads(ms, key, amount);
    FormatRoundTrip(ms, 0);
  }

  /** What the atomic append makes of it. */
  lemma AppendSays(ms: nat, key: string, amount: Int64, bids: seq<Bid>)
    requires amount > 0 && ms < 998 && !HasKey(bids, |key|)
    ensures Append(AntiSnipe, AuctionWith(bids), BidOf(ms, key, amount), ms).0
              == AuctionWith(bids + [BidOf(ms, key, amount)])
  {
  }

  lemma DeliverOne(w: World, k: nat)
    requires k !in w.workers && w.group.delivered < |w.group.stream|
    requires Parsed(w.group.stream[w.group.delivered]).Ok?
    ensures Enabled(Consumers(), w, Deliver(k, 1, true))
    ensures var i := w.group.delivered;
            Next(Consumers(), w, Deliver(k, 1, true)) ==
              w.(group := w.group.(delivered := i + 1, pending := w.group.pending[i := k]),
                 workers := w.workers[k := Worker([i], Fetched)])
  {
    hide Parsed;
    var i := w.group.delivered;
    assert Range(i, i + 1) == [i];
    assert Taken(w.group.pending, [i], k) == w.group.pending[i := k];
  }

  lemma JudgeOne(w: World, k: nat, bids: seq<Bid>)
    requires Busy(w, k, Fetched)
    requires Accepts(Consumers(), BookWith(bids), Parsed(Current(w, k)).value)
    ensures Enabled(Consumers(), w, Judge(k, BookWith(bids)))
    ensures Next(Consumers(), w, Judge(k, BookWith(bids))) ==
              Staged(w, k, Accepted(BookWith(bids)))
  {
    hide Accepts, Parsed;
  }

  const HIGH: Message := Sent(1, "k", 100)
  const LOW: Message := Sent(2, "kk", 50)

  /** Two messages have arrived, each is with a worker of its own. */
  function Delivered(first: Stage, second: Stage): World {
    START.(group := Group([HIGH, LOW], 2, map[0 := 1, 1 := 2], {}, map[]),
           workers := map[1 := Worker([0], first), 2 := Worker([1], second)])
  }

  lemma BothArrive() returns (worlds: seq<World>, steps: seq<Step>)
    ensures Run(Consumers(), worlds, steps) && worlds != [] && worlds[0] == START
    ensures Last(worlds) == START.(group := Group([HIGH, LOW], 0, map[], {}, map[]))
  {
    worlds, steps := [START], [];
    worlds, steps := More(Consumers(), worlds, steps, Arrive(HIGH));
    worlds, steps := More(Consumers(), worlds, steps, Arrive(LOW));
  }

  lemma BothFetched() returns (worlds: seq<World>, steps: seq<Step>)
    ensures Run(Consumers(), worlds, steps) && worlds != [] && worlds[0] == START
    ensures Last(worlds) == Delivered(Fetched, Fetched)
  {
    hide Parsed, Run, Enabled, Next;
    SentReads(1, "k", 100);
    SentReads(2, "kk", 50);
    worlds, steps := BothArrive();
    DeliverOne(Last(worlds), 1);
    worlds, steps := More(Consumers(), worlds, steps, Deliver(1, 1, true));
    DeliverOne(Last(worlds), 2);
    worlds, steps := More(Consumers(), worlds, steps, Deliver(2, 1, true));
  }

  lemma StartBook()
    ensures CommittedIn(START, BookWith([])) && Initial(START) && AtRest(BookWith([]), START.ledger)
  {
  }

  /** Both workers judge the same snapshot, the book before any bid. */
  lemma BothJudged() returns (worlds: seq<World>, steps: seq<Step>)
    ensures Run(Consumers(), worlds, steps) && worlds != [] && worlds[0] == START
    ensures Last(worlds) == Delivered(Accepted(BookWith([])), Accepted(BookWith([])))
    ensures Judge(1, BookWith([])) in steps && Judge(2, BookWith([])) in steps
  {
    hide Parsed, Run, Enabled, Next, Accepts, CommittedIn, Initial, AtRest;
    HookSays(1, "k", 100, []);
    HookSays(2, "kk", 50, []);
    StartBook();
    worlds, steps := BothFetched();
    assert CommittedIn(worlds[0], BookWith([]));
    JudgeOne(Last(worlds), 1, []);
    worlds, steps := More(Consumers(), worlds, steps, Judge(1, BookWith([])));
    JudgeOne(Last(worlds), 2, []);
    assert CommittedIn(worlds[0], BookWith([]));
    worlds, steps := More(Consumers(), worlds, steps, Judge(2, BookWith([])));
  }

  /** A transaction alone adds the message's bid to an auction that takes it. */
  lemma AppendedBook(book: Book, ms: nat, key: string, amount: Int64, bids: seq<Bid>)
    requires amount > 0 && key != "" && ms < 998 && !HasKey(bids, |key|)
    requires Appended(Consumers(), BookWith(bids), book, Sent(ms, key, amount))
    ensures book == BookWith(bids + [BidOf(ms, key, amount)])
  {
    hide Append, Readable, Parsed, BidAt, TimeAt;
    SentReads(ms, key, amount);
    AppendSays(ms, key, amount, bids);
  }

  lemma NoLadder(high: Bid, low: Bid)
    requires low.amount < high.amount
    ensures !Ladder(PRICING, [high, low])
  {
    assert [high, low][..1] == [high];
  }

  /** Two consumers undercut the price: they judge the same snapshot, and the lower amount is
      committed second. */
  lemma PricesFall() returns (worlds: seq<World>, steps: seq<Step>)
    ensures Run(Consumers(), worlds, steps) && worlds != [] && Initial(worlds[0])
    ensures UsesHook(Consumers(), PRICING, 1)
    ensures Judge(1, BookWith([])) in steps && Judge(2, BookWith([])) in steps
    ensures var bids := [BidOf(1, "k", 100), BidOf(2, "kk", 50)];
            && Refinement.BookOf(Last(worlds).ledger.db) == BookWith(bids)
            && bids[1].amount < bids[0].amount && !Ladder(PRICING, bids)
  {
    hide Ladder, Run, Initial, AtRest, Appended, Parsed, Readable, BidAt, TimeAt, Refinement.BookOf;
    SentReads(1, "k", 100);
    SentReads(2, "kk", 50);
    StartBook();
    var high, low := BidOf(1, "k", 100), BidOf(2, "kk", 50);
    NoLadder(high, low);
    assert [] + [high] == [high] && [high] + [low] == [high, low];
    worlds, steps := BothJudged();
    var e;
    worlds, steps, e := PersistAlone(Consumers(), BookWith([]), worlds, steps, 1);
    AppendedBook(Refinement.BookOf(Last(worlds).ledger.db), 1, "k", 100, []);
    assert 1 in BookWith([high]).Keys;
    worlds, steps, e := PersistAlone(Consumers(), BookWith([]), worlds, steps, 2);
    AppendedBook(Refinement.BookOf(Last(worlds).ledger.db), 2, "kk", 50, [high]);
  }


  // ---- A committed bid is refused ----

  function WithHigh(pending: map<nat, nat>, workers: map<nat, Worker>): World {
    START.(group := Group([HIGH], 1, pending, {}, map[]), workers := workers)
  }

  lemma OneDelivered() returns (worlds: seq<World>, steps: seq<Step>)
    ensures Run(Consumers(), worlds, steps) && worlds != [] && worlds[0] == START
    ensures Last(worlds) == WithHigh(map[0 := 1], map[1 := Worker([0], Fetched)])
  {
    hide Parsed;
    worlds, steps := [START], [];
    worlds, steps := More(Consumers(), worlds, steps, Arrive(HIGH));
    OneFetched(worlds[1]);
    worlds, steps := More(Consumers(), worlds, steps, Deliver(1, 1, true));
  }

  lemma OneJudged() returns (worlds: seq<World>, steps: seq<Step>)
    ensures Run(Consumers(), worlds, steps) && worlds != [] && worlds[0] == START
    ensures Last(worlds) == WithHigh(map[0 := 1], map[1 := Worker([0], Accepted(BookWith([])))])
  {
    hide Parsed, Accepts, Run, Enabled, Next, CommittedIn, Initial, AtRest;
    SentReads(1, "k", 100);
    HookSays(1, "k", 100, []);
    StartBook();
    worlds, steps := OneDelivered();
    assert CommittedIn(worlds[0], BookWith([]));
    JudgeOne(Last(worlds), 1, []);
    worlds, steps := More(Consumers(), worlds, steps, Judge(1, BookWith([])));
  }

  lemma OneFetched(w: World)
    requires w == START.(group := Group([HIGH], 0, map[], {}, map[]))
    ensures Enabled(Consumers(), w, Deliver(1, 1, true))
    ensures Next(Consumers(), w, Deliver(1, 1, true))
              == WithHigh(map[0 := 1], map[1 := Worker([0], Fetched)])
  {
    hide Parsed;
    SentReads(1, "k", 100);
    DeliverOne(w, 1);
  }

  /** The worker commits the bid and dies before the acknowledgement. */
  lemma OneCommitted() returns (worlds: seq<World>, steps: seq<Step>)
    ensures Run(Consumers(), worlds, steps) && worlds != [] && worlds[0] == START
    ensures Last(worlds).group == WithHigh(map[0 := 1], map[]).group && Last(worlds).workers == map[]
    ensures Refinement.BookOf(Last(worlds).ledger.db) == BookWith([BidOf(1, "k", 100)])
  {
    hide Run, Initial, AtRest, Appended, Parsed, Readable, BidAt, TimeAt, Refinement.BookOf;
    SentReads(1, "k", 100);
    StartBook();
    worlds, steps := OneJudged();
    assert [] + [BidOf(1, "k", 100)] == [BidOf(1, "k", 100)];
    var e;
    worlds, steps, e := PersistAlone(Consumers(), BookWith([]), worlds, steps, 1);
    AppendedBook(Refinement.BookOf(Last(worlds).ledger.db), 1, "k", 100, []);
    worlds, steps := More(Consumers(), worlds, steps, Crash(1));
  }

  lemma ClaimOne(w: World)
    requires w.group == WithHigh(map[0 := 1], map[]).group && w.workers == map[]
    ensures Enabled(Consumers(), w, Claim(2, [0], true))
    ensures Next(Consumers(), w, Claim(2, [0], true)) ==
              w.(group := w.group.(pending := map[0 := 2]), workers := map[2 := Worker([0], Fetched)])
  {
    hide Parsed;
    SentReads(1, "k", 100);
    assert Taken(map[0 := 1], [0], 2) == map[0 := 2];
  }

  lemma RejectOne(w: World, book: Book)
    requires Busy(w, 2, Fetched) && !Accepts(Consumers(), book, Parsed(Current(w, 2)).value)
    ensures Enabled(Consumers(), w, Judge(2, book))
    ensures Next(Consumers(), w, Judge(2, book)) ==
              Staged(w, 2, Rejected).(group :=
                w.group.(verdicts := w.group.verdicts[w.workers[2].batch[0] := book]))
  {
    hide Accepts, Parsed;
  }

  /** A second worker claims the message, and the hook refuses it by the price that the bid itself
      has set. */
  lemma OneRefused() returns (worlds: seq<World>, steps: seq<Step>)
    ensures Run(Consumers(), worlds, steps) && worlds != [] && worlds[0] == START
    ensures Last(worlds).group
              == Group([HIGH], 1, map[0 := 2], {}, map[0 := BookWith([BidOf(1, "k", 100)])])
    ensures Last(worlds).workers == map[2 := Worker([0], Rejected)]
    ensures Refinement.BookOf(Last(worlds).ledger.db) == BookWith([BidOf(1, "k", 100)])
    ensures TurnedAway(Consumers(), Last(worlds).group, 0)
  {
    hide Run, Enabled, Next, Parsed, Accepts, Refinement.BookOf;
    var high := BidOf(1, "k", 100);
    SentReads(1, "k", 100);
    HookSays(1, "k", 100, [high]);
    worlds, steps := OneCommitted();
    ClaimOne(Last(worlds));
    worlds, steps := More(Consumers(), worlds, steps, Claim(2, [0], true));
    assert CommittedIn(Last(worlds), BookWith([high]));
    RejectOne(Last(worlds), BookWith([high]));
    worlds, steps := More(Consumers(), worlds, steps, Judge(2, BookWith([high])));
  }

  lemma AcknowledgeOne(w: World)
    requires Busy(w, 2, Rejected) && w.workers == map[2 := Worker([0], Rejected)]
    ensures Enabled(Consumers(), w, Acknowledge(2))
    ensures Next(Consumers(), w, Acknowledge(2)) ==
              w.(group := w.group.(pending := w.group.pending - {0}, acked := w.group.acked + {0}),
                 workers := map[])
  {
    hide Parsed;
  }

  /** The message is acknowledged as refused: its bid is committed all the same. */
  lemma AcceptedAndRefused() returns (worlds: seq<World>, steps: seq<Step>)
    ensures Run(Consumers(), worlds, steps) && worlds != [] && Initial(worlds[0])
    ensures UsesHook(Consumers(), PRICING, 1)
    ensures var w := Last(worlds);
            && w.group.acked == {0} && TurnedAway(Consumers(), w.group, 0)
            && InBook(Consumers(), Refinement.BookOf(w.ledger.db), w.group.stream[0])
  {
    hide Run, Enabled, Next, Initial, AtRest, Parsed, Accepts, Readable, BidAt, Refinement.BookOf;
    SentReads(1, "k", 100);
    StartBook();
    worlds, steps := OneRefused();
    AcknowledgeOne(Last(worlds));
    worlds, steps := More(Consumers(), worlds, steps, Acknowledge(2));
    BookHasKey(Last(worlds).ledger.db, BidOf(1, "k", 100));
  }

  lemma BookHasKey(db: Transactions.Db, bid: Bid)
    requires Refinement.BookOf(db) == BookWith([bid]) && bid.auctionId == 1
    ensures HoldsKey(Refinement.BookOf(db), bid)
  {
    assert Refinement.BookOf(db)[1].bids == [bid];
    assert 1 in db.auctions && Transactions.BidsOf(db.auctions[1].bids)[0] == bid;
  }
}
