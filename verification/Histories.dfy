/** What a whole history of appends keeps: extensions, event replay, and facts about
    every run of the statement machine that follow through the refinement. */
module Histories {
  import opened Domain
  import opened Ledger
  import opened Transactions
  import opened Refinement

  // ---- The close time ----

  /** Close time and extension count move together from where they started. */
  predicate ClosedForm(a0: Auction, a: Auction) {
    && a.terms == a0.terms
    && a.close == a0.close + (a.count - a0.count) * a0.terms.interval
    && a0.count <= a.count
    && (a0.count <= a0.terms.maxExtensions ==> a.count <= a0.terms.maxExtensions)
  }

  lemma AppendKeepsClosedForm(a0: Auction, a: Auction, path: Path, bid: Bid, at: Time)
    requires ClosedForm(a0, a)
    ensures ClosedForm(a0, Append(path, a, bid, at).0)
  {
    var a' := Append(path, a, bid, at).0;
    if a'.count != a.count {
      calc {
        (a'.count - a0.count) * a0.terms.interval;
        (a.count - a0.count + 1) * a0.terms.interval;
        (a.count - a0.count) * a0.terms.interval + a0.terms.interval;
      }
    }
  }

  lemma {:induction false} ReplayClosedForm(book: Book, log: seq<Entry>, a: Uuid)
    requires a in book
    ensures a in Replay(book, log) && ClosedForm(book[a], Replay(book, log)[a])
  {
    if log != [] {
      ReplayClosedForm(book, log[..|log| - 1], a);
      var e := log[|log| - 1];
      var before := Replay(book, log[..|log| - 1]);
      if e.bid.auctionId == a {
        AppendKeepsClosedForm(book[a], before[a], e.path, e.bid, e.at);
      }
    }
  }

  predicate ExtendsAuction(e: Entry, a: Uuid) {
    e.bid.auctionId == a && Announces(e) && e.result.value.extended
  }

  lemma ReplayPrefix(book: Book, log: seq<Entry>, i: nat)
    requires i < |log|
    ensures Replay(book, log[..i + 1]) == Apply(Replay(book, log[..i]), log[i])
  {
    assert log[..i + 1][..i] == log[..i];
  }

  lemma {:induction false} CountGrows(book: Book, log: seq<Entry>, a: Uuid, i: nat, j: nat)
    requires a in book && i <= j <= |log|
    ensures a in Replay(book, log[..i]) && a in Replay(book, log[..j])
    ensures Replay(book, log[..i])[a].count <= Replay(book, log[..j])[a].count
  {
    ReplayClosedForm(book, log[..i], a);
    if i < j {
      CountGrows(book, log, a, i, j - 1);
      ReplayPrefix(book, log, j - 1);
      assert log[..j - 1] == log[..j][..j - 1];
    }
  }

  /** The k-th extending bid came inside the window that ends at the (k-1)-times extended
      close, and it is what raises the count to k. */
  lemma ExtensionWindow(book: Book, log: seq<Entry>, a: Uuid, i: nat)
    requires a in book && Explains(book, log)
    requires i < |log| && ExtendsAuction(log[i], a)
    ensures var k := log[i].result.value.count;
            var close := book[a].close + (k - 1 - book[a].count) * book[a].terms.interval;
            && a in Replay(book, log[..i]) && a in Replay(book, log[..i + 1])
            && Replay(book, log[..i])[a].count == k - 1
            && Replay(book, log[..i + 1])[a].count == k
            && close - book[a].terms.window <= log[i].at < close
  {
    ReplayClosedForm(book, log[..i], a);
    ReplayPrefix(book, log, i);
    assert Agrees(Replay(book, log[..i]), log[i]);
  }

  /** When the interval is at least the window, one instant extends an auction at most once. */
  lemma ExtendingTimesIncrease(book: Book, log: seq<Entry>, a: Uuid, i: nat, j: nat)
    requires a in book && Explains(book, log)
    requires 0 < book[a].terms.window <= book[a].terms.interval
    requires i < j < |log| && ExtendsAuction(log[i], a) && ExtendsAuction(log[j], a)
    ensures log[i].at < log[j].at
  {
    hide Replay, Agrees;
    ExtensionWindow(book, log, a, i);
    ExtensionWindow(book, log, a, j);
    CountGrows(book, log, a, i + 1, j);
    var n, m := log[i].result.value.count - book[a].count, log[j].result.value.count - book[a].count;
    MulOrder(n, m - 1, book[a].terms.interval);
    assert n * book[a].terms.interval == (n - 1) * book[a].terms.interval + book[a].terms.interval;
  }

  lemma MulOrder(x: int, y: int, k: int)
    requires x <= y && 0 <= k
    ensures x * k <= y * k
  {
  }

  /** In every reachable state of mixed histories the close time is the initial one plus the
      interval once per extension, and the allowance is never exceeded. */
  lemma RunClosedForm(states: seq<Sys>, steps: seq<Step>, n: nat, a: Uuid)
    requires Run(states, steps) && Initial(states[0]) && n < |states| && a in states[0].db.auctions
    ensures a in states[n].db.auctions
    ensures var t0, t := states[0].db.auctions[a], states[n].db.auctions[a];
            && t.terms == t0.terms && t0.count <= t.count
            && t.close == t0.close + (t.count - t0.count) * t0.terms.interval
            && (t0.count <= t0.terms.maxExtensions ==> t.count <= t0.terms.maxExtensions)
  {
    Serializable(states, steps, n);
    ReplayClosedForm(BookOf(states[0].db), states[n].log, a);
    assert AuctionOf(states[n].db.auctions[a]) == BookOf(states[n].db)[a];
  }

  // ---- Replaying the events ----

  /** One auction's events, oldest first. */
  function EventsOf(outbox: seq<OutboxRow>, a: Uuid): seq<BidAccepted> {
    if outbox == [] then []
    else
      var row := outbox[|outbox| - 1];
      EventsOf(outbox[..|outbox| - 1], a) + if row.event.bid.auctionId == a then [row.event] else []
  }

  lemma EventsAppend(outbox: seq<OutboxRow>, row: OutboxRow, a: Uuid)
    ensures EventsOf(outbox + [row], a) ==
      EventsOf(outbox, a) + if row.event.bid.auctionId == a then [row.event] else []
  {
    assert (outbox + [row])[..|outbox|] == outbox;
  }

  /** A reader of the events rebuilds the auction: each one adds a bid and restates the close
      time and the count. */
  function Rebuild(a: Auction, events: seq<BidAccepted>): Auction {
    if events == [] then a
    else
      var e := events[|events| - 1];
      Rebuild(a, events[..|events| - 1]).(close := e.close, count := e.count)
        .(bids := Rebuild(a, events[..|events| - 1]).bids + [e.bid])
  }

  function ExtendingEvents(events: seq<BidAccepted>): nat {
    if events == [] then 0
    else ExtendingEvents(events[..|events| - 1]) + if events[|events| - 1].extended then 1 else 0
  }

  predicate NoRowLock(log: seq<Entry>) {
    forall i :: 0 <= i < |log| ==> log[i].path.AntiSnipe?
  }

  /** The events of an auction describe its ledger row by row. */
  predicate Describes(events: seq<BidAccepted>, a0: Auction, a: Auction) {
    && |a.bids| == |a0.bids| + |events|
    && (forall k :: 0 <= k < |events| ==>
          && events[k].bid == a.bids[|a0.bids| + k]
          && events[k].seqNo == |a0.bids| + k + 1
          && events[k].submittedAt < events[k].close)
    && a == Rebuild(a0, events)
    && a.count == a0.count + ExtendingEvents(events)
  }

  lemma AppendDescribed(events: seq<BidAccepted>, a0: Auction, a: Auction, bid: Bid, at: Time,
                        event: BidAccepted)
    requires Describes(events, a0, a) && a.terms.Valid()
    requires Append(AntiSnipe, a, bid, at).1.Ok?
    requires var r := Append(AntiSnipe, a, bid, at).1.value;
             r.inserted && event == BidAccepted(bid, r.seqNo, at, r.close, r.extended, r.count)
    ensures Describes(events + [event], a0, Append(AntiSnipe, a, bid, at).0)
  {
    assert (events + [event])[..|events|] == events;
  }

  lemma QuietEntry(book: Book, e: Entry)
    requires Agrees(book, e) && e.path.AntiSnipe? && !Announces(e)
    ensures Apply(book, e) == book
  {
    var a := e.bid.auctionId;
    if a in book {
      assert Append(e.path, book[a], e.bid, e.at).0 == book[a];
    }
  }

  lemma AnnouncedDescribed(book: Book, events: seq<BidAccepted>, e: Entry, a0: Auction, a: Uuid)
    requires Agrees(book, e) && e.path.AntiSnipe? && Announces(e)
    requires a in book && book[a].terms.Valid() && Describes(events, a0, book[a])
    ensures Describes(events + if e.bid.auctionId == a then [Announcement(e).event] else [],
                      a0, Apply(book, e)[a])
  {
    if e.bid.auctionId == a {
      AppendDescribed(events, a0, book[a], e.bid, e.at, Announcement(e).event);
    } else {
      assert events + [] == events;
    }
  }

  lemma {:induction false} ReplayDescribed(book: Book, log: seq<Entry>, a: Uuid)
    requires a in book && book[a].terms.Valid() && Explains(book, log) && NoRowLock(log)
    ensures a in Replay(book, log)
    ensures Describes(EventsOf(Outbox(log), a), book[a], Replay(book, log)[a])
  {
    if log != [] {
      var before, e := log[..|log| - 1], log[|log| - 1];
      assert Explains(book, before) by {
        forall i | 0 <= i < |before| ensures Agrees(Replay(book, before[..i]), before[i]) {
          assert before[..i] == log[..i];
        }
      }
      ReplayDescribed(book, before, a);
      ReplayClosedForm(book, before, a);
      if Announces(e) {
        AnnouncedDescribed(Replay(book, before), EventsOf(Outbox(before), a), e, book[a], a);
        EventsAppend(Outbox(before), Announcement(e), a);
      } else {
        QuietEntry(Replay(book, before), e);
        assert Outbox(before) + [] == Outbox(before);
      }
    }
  }

  /** Every event is about an auction that the book knows. */
  lemma {:induction false} EventsKnown(book0: Book, log: seq<Entry>, a: Uuid)
    requires Explains(book0, log) && a !in book0
    ensures a !in Replay(book0, log) && EventsOf(Outbox(log), a) == []
  {
    if log != [] {
      var before, e := log[..|log| - 1], log[|log| - 1];
      assert Explains(book0, before) by {
        forall i | 0 <= i < |before| ensures Agrees(Replay(book0, before[..i]), before[i]) {
          assert before[..i] == log[..i];
        }
      }
      EventsKnown(book0, before, a);
      assert Agrees(Replay(book0, before), e);
      if Announces(e) {
        EventsAppend(Outbox(before), Announcement(e), a);
      } else {
        assert Outbox(before) + [] == Outbox(before);
      }
    }
  }

  lemma {:induction false} OnlyAntiSnipeLogged(states: seq<Sys>, steps: seq<Step>, n: nat)
    requires Run(states, steps) && Initial(states[0]) && n < |states|
    requires forall i :: 0 <= i < |steps| && steps[i].Begin? ==> steps[i].path.AntiSnipe?
    ensures NoRowLock(states[n].log)
    ensures forall t :: t in states[n].txs ==> states[n].txs[t].path.AntiSnipe?
  {
    if n > 0 {
      OnlyAntiSnipeLogged(states, steps, n - 1);
    }
  }

  /** In every reachable state of an anti-snipe-only history an auction's committed events are
      its bids, one each, numbered alike; replaying them from the initial auction gives the
      current close time, count and bids; and as many of them are marked as extending as the
      count has risen. */
  lemma EventsRebuildAuction(states: seq<Sys>, steps: seq<Step>, n: nat, a: Uuid)
    requires Run(states, steps) && Initial(states[0]) && n < |states| && a in states[0].db.auctions
    requires forall i :: 0 <= i < |steps| && steps[i].Begin? ==> steps[i].path.AntiSnipe?
    ensures a in states[n].db.auctions
    ensures var events := EventsOf(states[n].db.outbox, a);
            var a0, now := AuctionOf(states[0].db.auctions[a]), AuctionOf(states[n].db.auctions[a]);
            && |now.bids| == |a0.bids| + |events|
            && (forall k :: 0 <= k < |events| ==>
                  && events[k].bid == now.bids[|a0.bids| + k] && events[k].seqNo == |a0.bids| + k + 1
                  && events[k].submittedAt < events[k].close)
            && now == Rebuild(a0, events)
            && now.count == a0.count + ExtendingEvents(events)
  {
    Serializable(states, steps, n);
    OnlyAntiSnipeLogged(states, steps, n);
    assert WellFormed(states[0].db.auctions[a]);
    ReplayDescribed(BookOf(states[0].db), states[n].log, a);
    assert AuctionOf(states[n].db.auctions[a]) == BookOf(states[n].db)[a];
  }

  // ---- Numbers of events in mixed histories ----

  predicate NumbersRise(outbox: seq<OutboxRow>) {
    forall i, j :: (0 <= i < j < |outbox|
                    && outbox[i].event.bid.auctionId == outbox[j].event.bid.auctionId) ==>
      outbox[i].event.seqNo < outbox[j].event.seqNo
  }

  /** No event has a number beyond its auction's rows. */
  predicate NumbersWithin(outbox: seq<OutboxRow>, book: Book) {
    forall i :: 0 <= i < |outbox| ==>
      && outbox[i].event.bid.auctionId in book
      && outbox[i].event.seqNo <= |book[outbox[i].event.bid.auctionId].bids|
  }

  lemma EntryKeepsNumbers(book: Book, outbox: seq<OutboxRow>, e: Entry)
    requires Agrees(book, e) && NumbersRise(outbox) && NumbersWithin(outbox, book)
    ensures var outbox' := outbox + if Announces(e) then [Announcement(e)] else [];
            NumbersRise(outbox') && NumbersWithin(outbox', Apply(book, e))
  {
    hide Find, HasKey;
  }

  lemma {:induction false} LogNumbersRise(book: Book, log: seq<Entry>)
    requires Explains(book, log)
    ensures NumbersRise(Outbox(log)) && NumbersWithin(Outbox(log), Replay(book, log))
  {
    hide Agrees, NumbersRise, NumbersWithin, Apply;
    if log != [] {
      var before, e := log[..|log| - 1], log[|log| - 1];
      assert Explains(book, before) by {
        forall i | 0 <= i < |before| ensures Agrees(Replay(book, before[..i]), before[i]) {
          assert before[..i] == log[..i];
        }
      }
      LogNumbersRise(book, before);
      EntryKeepsNumbers(Replay(book, before), Outbox(before), e);
    } else {
      NoNumbers(book);
    }
  }

  lemma NoNumbers(book: Book)
    ensures NumbersRise([]) && NumbersWithin([], book)
  {
  }

  /** One event per sequence number, in mixed histories too: along the outbox an auction's event
      numbers rise strictly. They have gaps where the row-lock path appended. */
  lemma EventNumbersRise(states: seq<Sys>, steps: seq<Step>, n: nat)
    requires Run(states, steps) && Initial(states[0]) && n < |states|
    ensures NumbersRise(states[n].db.outbox)
  {
    hide NumbersRise, NumbersWithin, Explains, Replay;
    Serializable(states, steps, n);
    LogNumbersRise(BookOf(states[0].db), states[n].log);
  }

  // ---- What callers were told ----

  /** The answer names the place of the key's bid, and the bid itself when this call inserted it. */
  predicate NamesBid(bids: seq<Bid>, e: Entry)
    requires e.result.Ok?
  {
    var n := e.result.value.seqNo;
    && 1 <= n <= |bids| && bids[n - 1].key == e.bid.key
    && (e.result.value.inserted ==> bids[n - 1] == e.bid)
  }

  lemma ApplyGrows(book: Book, e: Entry, a: Uuid)
    requires a in book
    ensures a in Apply(book, e) && book[a].bids <= Apply(book, e)[a].bids
  {
    if e.bid.auctionId == a {
      AppendExact(e.path, book[a], e.bid, e.at);
    }
  }

  lemma {:induction false} AnswerStands(book: Book, log: seq<Entry>, k: nat)
    requires Explains(book, log) && k < |log| && log[k].result.Ok?
    ensures log[k].bid.auctionId in Replay(book, log)
    ensures NamesBid(Replay(book, log)[log[k].bid.auctionId].bids, log[k])
  {
    hide Append, Apply;
    var before, last := log[..|log| - 1], log[|log| - 1];
    var a := log[k].bid.auctionId;
    assert Explains(book, before) by {
      forall i | 0 <= i < |before| ensures Agrees(Replay(book, before[..i]), before[i]) {
        assert before[..i] == log[..i];
      }
    }
    if k < |before| {
      AnswerStands(book, before, k);
      ApplyGrows(Replay(book, before), last, a);
    } else {
      assert Agrees(Replay(book, before), last);
      LastAnswer(Replay(book, before), last);
    }
  }

  lemma LastAnswer(book: Book, e: Entry)
    requires Agrees(book, e) && e.result.Ok?
    ensures e.bid.auctionId in Apply(book, e)
    ensures NamesBid(Apply(book, e)[e.bid.auctionId].bids, e)
  {
    AppendExact(e.path, book[e.bid.auctionId], e.bid, e.at);
  }

  /** Every call of either path that was answered without an error, at any point of any run, was told
      the number of a row that is there now: it carries the key of its bid and that number, and it is
      its own bid when it was told that it inserted it. */
  lemma AnswersStand(states: seq<Sys>, steps: seq<Step>, n: nat, k: nat)
    requires Run(states, steps) && Initial(states[0]) && n < |states|
    requires k < |states[n].log| && states[n].log[k].result.Ok?
    ensures var e := states[n].log[k];
            && e.bid.auctionId in states[n].db.auctions
            && var rows, told := states[n].db.auctions[e.bid.auctionId].bids, e.result.value.seqNo;
               && 1 <= told <= |rows|
               && rows[told - 1].seqNo == told && rows[told - 1].bid.key == e.bid.key
               && (e.result.value.inserted ==> rows[told - 1].bid == e.bid)
  {
    hide Replay, Explains;
    Serializable(states, steps, n);
    var e := states[n].log[k];
    AnswerStands(BookOf(states[0].db), states[n].log, k);
    var t := states[n].db.auctions[e.bid.auctionId];
    assert AuctionOf(t) == BookOf(states[n].db)[e.bid.auctionId];
    assert WellFormed(t);
    assert t.bids[e.result.value.seqNo - 1].bid == BidsOf(t.bids)[e.result.value.seqNo - 1];
  }

  /** Calls stay on record as they were answered. */
  lemma {:induction false} LogIsAppendOnly(states: seq<Sys>, steps: seq<Step>, m: nat, n: nat)
    requires Run(states, steps) && Initial(states[0]) && m <= n < |states|
    ensures states[m].log <= states[n].log
  {
    hide Inv, Refines, Enabled, Next, Initial;
    if m < n {
      LogIsAppendOnly(states, steps, m, n - 1);
      Serializable(states, steps, n - 1);
      StepEffect(states[n - 1], steps[n - 1]);
    }
  }

  /** However often and on whichever path a key is sent, all calls are told one number, and at most one
      of them that it inserted the bid. */
  lemma OneNumberPerKey(states: seq<Sys>, steps: seq<Step>, n: nat, j: nat, k: nat)
    requires Run(states, steps) && Initial(states[0]) && n < |states| && j < k < |states[n].log|
    requires states[n].log[j].result.Ok? && states[n].log[k].result.Ok?
    requires states[n].log[j].bid.auctionId == states[n].log[k].bid.auctionId
    requires states[n].log[j].bid.key == states[n].log[k].bid.key
    ensures states[n].log[j].result.value.seqNo == states[n].log[k].result.value.seqNo
    ensures !states[n].log[k].result.value.inserted
  {
    hide Replay, TablesInv, LocksInv, SharesInv, TxsInv;
    var log := states[n].log;
    AnswersStand(states, steps, n, j);
    AnswersStand(states, steps, n, k);
    GapFree(states, steps, n, log[j].bid.auctionId);
    Serializable(states, steps, n);
    var book0 := BookOf(states[0].db);
    forall i | 0 <= i < k ensures Agrees(Replay(book0, log[..k][..i]), log[..k][i]) {
      assert log[..k][..i] == log[..i];
    }
    AnswerStands(book0, log[..k], j);
    KnownKey(Replay(book0, log[..k]), log[..k][j], log[k]);
  }

  lemma KnownKey(book: Book, earlier: Entry, e: Entry)
    requires Agrees(book, e) && e.result.Ok? && earlier.result.Ok? && earlier.bid.key == e.bid.key
    requires earlier.bid.auctionId == e.bid.auctionId && e.bid.auctionId in book
    requires NamesBid(book[e.bid.auctionId].bids, earlier)
    ensures !e.result.value.inserted
  {
    AppendExact(e.path, book[e.bid.auctionId], e.bid, e.at);
  }

  // ---- What events say ----

  /** The event tells of this call: its bid, its time, its answer. */
  predicate TellsOf(row: OutboxRow, e: Entry) {
    && row.stamp == e.stamp
    && row.event.bid == e.bid && row.event.submittedAt == e.at
    && e.result == Ok(AntiSnipeResponse(row.event.seqNo, true, row.event.extended, row.event.close,
                                        row.event.count))
  }

  lemma {:induction false} OutboxTells(log: seq<Entry>, i: nat)
    requires i < |Outbox(log)|
    ensures exists k :: 0 <= k < |log| && TellsOf(Outbox(log)[i], log[k])
  {
    var before := log[..|log| - 1];
    if i < |Outbox(before)| {
      OutboxTells(before, i);
      var k :| 0 <= k < |before| && TellsOf(Outbox(before)[i], before[k]);
      assert log[k] == before[k];
    } else {
      assert TellsOf(Outbox(log)[i], log[|log| - 1]);
    }
  }

  /** In every reachable state of mixed histories every committed event tells of a call that was
      answered: its bid, the time that the call was given, and just what the caller was told. */
  lemma EventsTell(states: seq<Sys>, steps: seq<Step>, n: nat, i: nat)
    requires Run(states, steps) && Initial(states[0]) && n < |states|
    requires i < |states[n].db.outbox|
    ensures exists k :: 0 <= k < |states[n].log| && TellsOf(states[n].db.outbox[i], states[n].log[k])
  {
    hide Outbox, TellsOf;
    Serializable(states, steps, n);
    OutboxTells(states[n].log, i);
  }
}
