/** From the stream to the subscribers: what the channel holds in any world that the pipeline can
    reach while only the anti-snipe path appends. */
module EndToEnd {
  import opened Domain
  import opened Ledger
  import opened Settlement
  import opened Histories
  import opened Pipeline
  import Transactions
  import Refinement
  import Snapshots
  import Outbox
  import OutboxOrder

  predicate OnlyAntiSnipe(steps: seq<Step>) {
    forall i :: 0 <= i < |steps| && steps[i].LedgerStep? && steps[i].step.Begin? ==>
      steps[i].step.path.AntiSnipe?
  }

  /** All auctions start without bids. */
  predicate NoBidsYet(w: World) {
    forall a :: a in w.ledger.db.auctions ==> w.ledger.db.auctions[a].bids == []
  }

  /** What the ledger's own theorems say about the outbox of a world. */
  lemma WorldLedger(c: Config, worlds: seq<World>, steps: seq<Step>, n: nat)
    requires Run(c, worlds, steps) && Initial(worlds[0]) && n < |worlds| && OnlyAntiSnipe(steps)
    ensures NoRowLock(worlds[n].ledger.log) && NumbersRise(worlds[n].ledger.db.outbox)
  {
    hide NumbersRise, Run, Enabled, Next, Transactions.Enabled, Transactions.Next;
    var states, moves := LedgerRun(c, worlds, steps, n);
    forall j | 0 <= j < |moves| && moves[j].Begin? ensures moves[j].path.AntiSnipe? {
      assert ComesFrom(c, worlds, steps, states[j], moves[j]);
    }
    OnlyAntiSnipeLogged(states, moves, |moves|);
    EventNumbersRise(states, moves, |moves|);
  }

  // ---- Events and places ----

  /** Each auction's events are numbered by their places, from one. */
  ghost predicate NumberedEvents(outbox: seq<OutboxRow>) {
    forall a, m :: 0 <= m < |EventsOf(outbox, a)| ==> EventsOf(outbox, a)[m].seqNo == m + 1
  }

  lemma {:induction false} EventPlace(outbox: seq<OutboxRow>, a: Uuid, i: nat)
    requires i < |outbox| && outbox[i].event.bid.auctionId == a
    ensures |EventsOf(outbox[..i], a)| < |EventsOf(outbox, a)|
    ensures EventsOf(outbox, a)[|EventsOf(outbox[..i], a)|] == outbox[i].event
  {
    var n := |outbox| - 1;
    if i < n {
      assert outbox[..n][..i] == outbox[..i];
      EventPlace(outbox[..n], a, i);
    }
  }

  lemma {:induction false} EventHasRow(outbox: seq<OutboxRow>, a: Uuid, m: nat) returns (i: nat)
    requires m < |EventsOf(outbox, a)|
    ensures i < |outbox| && outbox[i].event.bid.auctionId == a && outbox[i].event == EventsOf(outbox, a)[m]
  {
    var n := |outbox| - 1;
    if m < |EventsOf(outbox[..n], a)| {
      i := EventHasRow(outbox[..n], a, m);
    } else {
      i := n;
    }
  }

  lemma NumberIsPlace(outbox: seq<OutboxRow>, i: nat)
    requires NumberedEvents(outbox) && i < |outbox|
    ensures outbox[i].event.seqNo == |EventsOf(outbox[..i], outbox[i].event.bid.auctionId)| + 1
  {
    EventPlace(outbox, outbox[i].event.bid.auctionId, i);
  }

  lemma NumberHasPredecessor(rows: seq<Outbox.Row>, outbox: seq<OutboxRow>, i: nat)
    requires NumberedEvents(outbox) && outbox == OutboxOrder.Data(rows)
    requires i < |rows| && OutboxOrder.SeqNo(rows[i]) > 1
    ensures OutboxOrder.HasNumber(rows, OutboxOrder.AuctionId(rows[i]), OutboxOrder.SeqNo(rows[i]) - 1)
  {
    var a := outbox[i].event.bid.auctionId;
    NumberIsPlace(outbox, i);
    EventPlace(outbox, a, i);
    var j := EventHasRow(outbox, a, |EventsOf(outbox[..i], a)| - 1);
    assert OutboxOrder.AuctionId(rows[j]) == a;
    assert OutboxOrder.SeqNo(rows[j]) == OutboxOrder.SeqNo(rows[i]) - 1;
  }

  /** Numbered events in clock order are what the one-relay argument needs. */
  lemma RowsSequenced(rows: seq<Outbox.Row>, ledger: Transactions.Sys)
    requires OutboxOrder.Data(rows) == ledger.db.outbox
    requires NumberedEvents(ledger.db.outbox) && NumbersRise(ledger.db.outbox)
    requires Snapshots.StampsOrdered(ledger)
    ensures OutboxOrder.Sequenced(rows)
  {
    hide NumberedEvents, OutboxOrder.HasNumber;
    var outbox := ledger.db.outbox;
    forall i, j | 0 <= i < j < |rows| && OutboxOrder.AuctionId(rows[i]) == OutboxOrder.AuctionId(rows[j])
      ensures OutboxOrder.SeqNo(rows[i]) < OutboxOrder.SeqNo(rows[j])
      ensures rows[i].data.stamp.createdAt < rows[j].data.stamp.createdAt
    {
      assert rows[i].data == outbox[i] && rows[j].data == outbox[j];
    }
    forall i | 0 <= i < |rows|
      ensures OutboxOrder.SeqNo(rows[i]) >= 1
      ensures OutboxOrder.SeqNo(rows[i]) > 1 ==>
                OutboxOrder.HasNumber(rows, OutboxOrder.AuctionId(rows[i]), OutboxOrder.SeqNo(rows[i]) - 1)
    {
      assert rows[i].data == outbox[i];
      NumberIsPlace(outbox, i);
      if OutboxOrder.SeqNo(rows[i]) > 1 {
        NumberHasPredecessor(rows, outbox, i);
      }
    }
  }

  // ---- Events and bids ----

  /** An auction's events are its bids, place by place. */
  predicate EventsAreBids(outbox: seq<OutboxRow>, a: Uuid, bids: seq<Transactions.BidRow>) {
    && |EventsOf(outbox, a)| == |bids|
    && forall k :: 0 <= k < |bids| ==>
         && EventsOf(outbox, a)[k].bid == bids[k].bid
         && EventsOf(outbox, a)[k].seqNo == bids[k].seqNo == k + 1
  }

  lemma LedgerEvents(book0: Book, ledger: Transactions.Sys, a: Uuid)
    requires Refinement.Refines(book0, ledger) && Refinement.TablesInv(ledger.db)
    requires NoRowLock(ledger.log)
    requires a in book0 && book0[a].terms.Valid() && book0[a].bids == []
    ensures a in ledger.db.auctions
    ensures EventsAreBids(ledger.db.outbox, a, ledger.db.auctions[a].bids)
  {
    hide Replay, Refinement.Explains, Describes, EventsAreBids, Transactions.WellFormed;
    ReplayDescribed(book0, ledger.log, a);
    assert Refinement.AuctionOf(ledger.db.auctions[a]) == Refinement.BookOf(ledger.db)[a];
    DescribedAreBids(ledger.db.outbox, a, book0[a], ledger.db.auctions[a]);
  }

  lemma DescribedAreBids(outbox: seq<OutboxRow>, a: Uuid, a0: Auction, t: Transactions.Tables)
    requires Describes(EventsOf(outbox, a), a0, Refinement.AuctionOf(t)) && a0.bids == []
    requires Transactions.WellFormed(t)
    ensures EventsAreBids(outbox, a, t.bids)
  {
    hide Rebuild, ExtendingEvents, EventsOf, Transactions.DistinctKeys;
  }

  /** In every reachable world. */
  lemma WorldEvents(c: Config, worlds: seq<World>, steps: seq<Step>, n: nat)
    requires Run(c, worlds, steps) && Initial(worlds[0]) && n < |worlds|
    requires OnlyAntiSnipe(steps) && NoBidsYet(worlds[0])
    ensures forall a :: a in worlds[n].ledger.db.auctions ==>
              EventsAreBids(worlds[n].ledger.db.outbox, a, worlds[n].ledger.db.auctions[a].bids)
    ensures forall a :: a !in worlds[n].ledger.db.auctions ==>
              EventsOf(worlds[n].ledger.db.outbox, a) == []
    ensures NumberedEvents(worlds[n].ledger.db.outbox) && NumbersRise(worlds[n].ledger.db.outbox)
  {
    hide Replay, Refinement.Explains, EventsAreBids, EventsOf, Next, Enabled, GroupOk, RelayOk,
         WorkersOk, AckedOk, NumbersRise;
    RunKeepsInv(c, worlds, steps, n);
    WorldLedger(c, worlds, steps, n);
    LedgerEventsAll(worlds[0], worlds[n].ledger);
  }

  lemma LedgerEventsAll(w0: World, ledger: Transactions.Sys)
    requires Initial(w0) && NoBidsYet(w0) && NoRowLock(ledger.log)
    requires LedgerOk(Refinement.BookOf(w0.ledger.db), ledger)
    ensures forall a :: a in ledger.db.auctions ==>
              EventsAreBids(ledger.db.outbox, a, ledger.db.auctions[a].bids)
    ensures forall a :: a !in ledger.db.auctions ==> EventsOf(ledger.db.outbox, a) == []
    ensures NumberedEvents(ledger.db.outbox)
  {
    hide Replay, Refinement.Explains, EventsAreBids, EventsOf, LogOk, Snapshots.DistinctIds,
         Refinement.LocksInv, Refinement.TxsInv, Transactions.Numbered, Transactions.DistinctKeys;
    var book0 := Refinement.BookOf(w0.ledger.db);
    forall a
      ensures a in ledger.db.auctions ==>
                EventsAreBids(ledger.db.outbox, a, ledger.db.auctions[a].bids)
      ensures a !in ledger.db.auctions ==> EventsOf(ledger.db.outbox, a) == []
      ensures forall m :: 0 <= m < |EventsOf(ledger.db.outbox, a)| ==>
                EventsOf(ledger.db.outbox, a)[m].seqNo == m + 1
    {
      if a in book0 {
        assert Transactions.WellFormed(w0.ledger.db.auctions[a]);
        LedgerEvents(book0, ledger, a);
        EventsNumbered(ledger.db.outbox, a, ledger.db.auctions[a].bids);
      } else {
        EventsKnown(book0, ledger.log, a);
        assert a !in Refinement.BookOf(ledger.db);
      }
    }
  }

  lemma EventsNumbered(outbox: seq<OutboxRow>, a: Uuid, bids: seq<Transactions.BidRow>)
    requires EventsAreBids(outbox, a, bids)
    ensures forall m :: 0 <= m < |EventsOf(outbox, a)| ==> EventsOf(outbox, a)[m].seqNo == m + 1
  {
  }

  // ---- Exactly once ----

  /** `q` holds one event for every bid of the auction, and no other event of that auction. */
  ghost predicate OncePerBid(q: seq<OutboxRow>, a: Uuid, bids: seq<Transactions.BidRow>) {
    && (forall k :: 0 <= k < |bids| ==> Announced(q, a, bids[k]))
    && (forall m :: 0 <= m < |q| && q[m].event.bid.auctionId == a ==>
          && 1 <= q[m].event.seqNo <= |bids|
          && bids[q[m].event.seqNo - 1].bid == q[m].event.bid)
    && (forall l, m :: 0 <= l < m < |q| && q[l].event.bid.auctionId == a
                       && q[m].event.bid.auctionId == a ==>
          q[l].event.seqNo != q[m].event.seqNo)
  }

  ghost predicate Announced(q: seq<OutboxRow>, a: Uuid, bid: Transactions.BidRow) {
    exists m: nat :: m < |q| && q[m].event.bid.auctionId == a && q[m].event.bid == bid.bid
  }

  predicate Drained(relay: Outbox.Sys) {
    forall i :: 0 <= i < |relay.rows| ==> relay.rows[i].published
  }

  lemma RowIsBid(outbox: seq<OutboxRow>, a: Uuid, bids: seq<Transactions.BidRow>, i: nat)
    requires EventsAreBids(outbox, a, bids) && i < |outbox| && outbox[i].event.bid.auctionId == a
    ensures 1 <= outbox[i].event.seqNo <= |bids|
    ensures bids[outbox[i].event.seqNo - 1].bid == outbox[i].event.bid
  {
    EventPlace(outbox, a, i);
  }

  lemma BidHasRow(outbox: seq<OutboxRow>, a: Uuid, bids: seq<Transactions.BidRow>, k: nat)
    returns (i: nat)
    requires EventsAreBids(outbox, a, bids) && k < |bids|
    ensures i < |outbox| && outbox[i].event.bid.auctionId == a && outbox[i].event.bid == bids[k].bid
  {
    i := EventHasRow(outbox, a, k);
  }

  lemma DrainedOncePerBid(q: seq<OutboxRow>, outbox: seq<OutboxRow>, a: Uuid, bids: seq<Transactions.BidRow>)
    requires multiset(q) == multiset(outbox) && OutboxOrder.DistinctIds(q)
    requires EventsAreBids(outbox, a, bids) && NumbersRise(outbox)
    ensures OncePerBid(q, a, bids)
  {
    hide EventsAreBids, NumbersRise, OutboxOrder.DistinctIds, Announced;
    SameMembers(q, outbox);
    forall k | 0 <= k < |bids| ensures Announced(q, a, bids[k]) {
      BidAnnounced(q, outbox, a, bids, k);
    }
    forall m | 0 <= m < |q| && q[m].event.bid.auctionId == a
      ensures 1 <= q[m].event.seqNo <= |bids|
      ensures bids[q[m].event.seqNo - 1].bid == q[m].event.bid
    {
      assert q[m] in outbox;
      var i :| 0 <= i < |outbox| && outbox[i] == q[m];
      RowIsBid(outbox, a, bids, i);
    }
    forall l, m | 0 <= l < m < |q| && q[l].event.bid.auctionId == a && q[m].event.bid.auctionId == a
      ensures q[l].event.seqNo != q[m].event.seqNo
    {
      DifferentNumbers(q, outbox, l, m);
    }
  }

  lemma SameMembers(q: seq<OutboxRow>, outbox: seq<OutboxRow>)
    requires multiset(q) == multiset(outbox)
    ensures forall d :: d in q <==> d in outbox
  {
    forall d ensures d in q <==> d in outbox {
      assert d in q <==> d in multiset(q);
      assert d in outbox <==> d in multiset(outbox);
    }
  }

  lemma BidAnnounced(q: seq<OutboxRow>, outbox: seq<OutboxRow>, a: Uuid,
                     bids: seq<Transactions.BidRow>, k: nat)
    requires (forall d :: d in outbox ==> d in q) && EventsAreBids(outbox, a, bids) && k < |bids|
    ensures Announced(q, a, bids[k])
  {
    hide EventsAreBids;
    var i := BidHasRow(outbox, a, bids, k);
    assert outbox[i] in q;
    var m: nat :| m < |q| && q[m] == outbox[i];
  }

  lemma DifferentNumbers(q: seq<OutboxRow>, outbox: seq<OutboxRow>, l: nat, m: nat)
    requires forall d :: d in q ==> d in outbox
    requires OutboxOrder.DistinctIds(q) && NumbersRise(outbox)
    requires l < m < |q| && q[l].event.bid.auctionId == q[m].event.bid.auctionId
    ensures q[l].event.seqNo != q[m].event.seqNo
  {
    assert q[l] in outbox && q[m] in outbox;
    var i :| 0 <= i < |outbox| && outbox[i] == q[l];
    var j :| 0 <= j < |outbox| && outbox[j] == q[m];
  }

  lemma RelayShowsOutbox(relay: Outbox.Sys, outbox: seq<OutboxRow>)
    requires RelayOk(relay, outbox)
    ensures OutboxOrder.Data(relay.rows) == outbox
    ensures forall d :: d in relay.channel ==> d in outbox
  {
    forall d | d in relay.channel ensures d in outbox {
      var k :| 0 <= k < |relay.channel| && relay.channel[k] == d;
      assert Outbox.IsRow(relay.rows, relay.channel[k]);
      var i :| 0 <= i < |relay.rows| && relay.rows[i].data == d;
      assert outbox[i] == d;
    }
  }

  /** End-to-end exactly once, in every reachable world, with any number of workers, relays and
      crashes. Only committed events are ever on the channel; an auction's committed events are
      its bids, one each; and once nothing is left to publish, the channel without repeated
      identifiers holds exactly one event for each bid. */
  lemma PublishedExactlyOnce(c: Config, worlds: seq<World>, steps: seq<Step>, n: nat, a: Uuid)
    requires Run(c, worlds, steps) && Initial(worlds[0]) && n < |worlds|
    requires OnlyAntiSnipe(steps) && NoBidsYet(worlds[0])
    requires a in worlds[n].ledger.db.auctions
    ensures var db, channel := worlds[n].ledger.db, worlds[n].relay.channel;
            && (forall d :: d in channel ==> d in db.outbox)
            && EventsAreBids(db.outbox, a, db.auctions[a].bids)
            && (Drained(worlds[n].relay) ==>
                  OncePerBid(OutboxOrder.FirstSeen(channel), a, db.auctions[a].bids))
  {
    hide LedgerOk, GroupOk, WorkersOk, AckedOk, EventsAreBids, OncePerBid, NumberedEvents, NumbersRise,
         OutboxOrder.FirstSeen, OutboxOrder.DistinctIds, Next, Enabled;
    RunKeepsInv(c, worlds, steps, n);
    WorldEvents(c, worlds, steps, n);
    RelayShowsOutbox(worlds[n].relay, worlds[n].ledger.db.outbox);
    if Drained(worlds[n].relay) {
      OutboxOrder.DrainedExactlyOnce(worlds[n].relay);
      OutboxOrder.FirstSeenDistinct(worlds[n].relay.channel);
      DrainedOncePerBid(OutboxOrder.FirstSeen(worlds[n].relay.channel), worlds[n].ledger.db.outbox, a,
                        worlds[n].ledger.db.auctions[a].bids);
    }
  }

  /** The event announces a bid with the same key. */
  predicate IsFor(d: OutboxRow, bid: Bid) {
    d.event.bid.auctionId == bid.auctionId && d.event.bid.key == bid.key
  }

  ghost predicate SeenOnce(q: seq<OutboxRow>, bid: Bid) {
    exists m: nat :: m < |q| && IsFor(q[m], bid)
                     && forall l: nat :: l < |q| && IsFor(q[l], bid) ==> l == m
  }

  /** A message whose key is in the ledger reaches the reader exactly once, as the event of its key:
      also when the hook has turned it away on a later delivery. */
  lemma CommittedIsSeenOnce(c: Config, worlds: seq<World>, steps: seq<Step>, n: nat, i: nat)
    requires Run(c, worlds, steps) && Initial(worlds[0]) && n < |worlds|
    requires OnlyAntiSnipe(steps) && NoBidsYet(worlds[0]) && Drained(worlds[n].relay)
    requires i < |worlds[n].group.stream|
    requires InBook(c, Refinement.BookOf(worlds[n].ledger.db), worlds[n].group.stream[i])
    ensures SeenOnce(OutboxOrder.FirstSeen(worlds[n].relay.channel), BidAt(c, worlds[n].group.stream[i]))
  {
    hide GroupOk, OncePerBid, OutboxOrder.FirstSeen, Next, Enabled, Readable, BidAt,
         RelayOk, WorkersOk, AckedOk, EventsAreBids, Refinement.LocksInv, Refinement.TxsInv,
         Refinement.Refines, Snapshots.DistinctIds, LogOk, SeenOnce;
    RunKeepsInv(c, worlds, steps, n);
    var bid := BidAt(c, worlds[n].group.stream[i]);
    PublishedExactlyOnce(c, worlds, steps, n, bid.auctionId);
    var t := worlds[n].ledger.db.auctions[bid.auctionId];
    assert Transactions.WellFormed(t);
    KeySeenOnce(OutboxOrder.FirstSeen(worlds[n].relay.channel), t.bids, bid);
  }

  lemma ForBidIsRow(outbox: seq<OutboxRow>, db: Transactions.Db, d: OutboxRow, bid: Bid)
    requires d in outbox && IsFor(d, bid)
    requires bid.auctionId in db.auctions ==>
               EventsAreBids(outbox, bid.auctionId, db.auctions[bid.auctionId].bids)
    requires bid.auctionId !in db.auctions ==> EventsOf(outbox, bid.auctionId) == []
    ensures HoldsKey(Refinement.BookOf(db), bid)
  {
    hide EventsAreBids;
    var i: nat :| i < |outbox| && outbox[i] == d;
    EventPlace(outbox, bid.auctionId, i);
    var rows := db.auctions[bid.auctionId].bids;
    RowIsBid(outbox, bid.auctionId, rows, i);
    assert Transactions.BidsOf(rows)[d.event.seqNo - 1].key == bid.key;
  }

  /** A key that is not in the ledger is not on the channel. */
  lemma UncommittedIsNeverSeen(c: Config, worlds: seq<World>, steps: seq<Step>, n: nat, bid: Bid, d: OutboxRow)
    requires Run(c, worlds, steps) && Initial(worlds[0]) && n < |worlds|
    requires OnlyAntiSnipe(steps) && NoBidsYet(worlds[0])
    requires d in worlds[n].relay.channel && IsFor(d, bid)
    ensures HoldsKey(Refinement.BookOf(worlds[n].ledger.db), bid)
  {
    hide Next, Enabled, LedgerOk, GroupOk, WorkersOk, AckedOk, EventsAreBids, NumberedEvents, NumbersRise,
         HoldsKey, IsFor;
    RunKeepsInv(c, worlds, steps, n);
    WorldEvents(c, worlds, steps, n);
    RelayShowsOutbox(worlds[n].relay, worlds[n].ledger.db.outbox);
    ForBidIsRow(worlds[n].ledger.db.outbox, worlds[n].ledger.db, d, bid);
  }

  /** What the reader sees of an acknowledged message. When its key is in the ledger, exactly one event
      of its key, once the outbox is drained. When it is not, the hook has turned the message away,
      and no event of its key is ever on the channel. */
  lemma AcknowledgedIsSeenOnce(c: Config, worlds: seq<World>, steps: seq<Step>, n: nat, i: nat)
    requires Run(c, worlds, steps) && Initial(worlds[0]) && n < |worlds|
    requires OnlyAntiSnipe(steps) && NoBidsYet(worlds[0])
    requires i in worlds[n].group.acked
    ensures i < |worlds[n].group.stream|
    ensures var m := worlds[n].group.stream[i];
            if InBook(c, Refinement.BookOf(worlds[n].ledger.db), m) then
              Drained(worlds[n].relay) ==>
                SeenOnce(OutboxOrder.FirstSeen(worlds[n].relay.channel), BidAt(c, m))
            else
              && TurnedAway(c, worlds[n].group, i)
              && (Readable(c, m) ==> forall d :: d in worlds[n].relay.channel ==> !IsFor(d, BidAt(c, m)))
  {
    hide GroupOk, Next, Enabled, Readable, BidAt, TurnedAway, HoldsKey, SeenOnce, IsFor,
         OutboxOrder.FirstSeen;
    CommitBeforeAck(c, worlds, steps, n);
    assert Settled(c, worlds[n].group, worlds[n].ledger.db, i);
    var m := worlds[n].group.stream[i];
    if InBook(c, Refinement.BookOf(worlds[n].ledger.db), m) {
      if Drained(worlds[n].relay) {
        CommittedIsSeenOnce(c, worlds, steps, n, i);
      }
    } else if Readable(c, m) {
      forall d | d in worlds[n].relay.channel ensures !IsFor(d, BidAt(c, m)) {
        if IsFor(d, BidAt(c, m)) {
          UncommittedIsNeverSeen(c, worlds, steps, n, BidAt(c, m), d);
        }
      }
    }
  }

  lemma KeySeenOnce(q: seq<OutboxRow>, bids: seq<Transactions.BidRow>, bid: Bid)
    requires OncePerBid(q, bid.auctionId, bids)
    requires Transactions.DistinctKeys(Transactions.BidsOf(bids))
    requires HasKey(Transactions.BidsOf(bids), bid.key)
    ensures SeenOnce(q, bid)
  {
    hide OncePerBid, HasKey, Transactions.DistinctKeys;
    var m := KeyIsSeen(q, bid.auctionId, bids, bid.key);
    assert IsFor(q[m], bid);
    forall l: nat | l < |q| && IsFor(q[l], bid) ensures l == m {
      SameKeySameEvent(q, bid.auctionId, bids, l, m);
    }
  }

  lemma KeyIsSeen(q: seq<OutboxRow>, a: Uuid, bids: seq<Transactions.BidRow>, key: Uuid)
    returns (m: nat)
    requires OncePerBid(q, a, bids) && HasKey(Transactions.BidsOf(bids), key)
    ensures m < |q| && q[m].event.bid.auctionId == a && q[m].event.bid.key == key
  {
    hide OncePerBid;
    var k := Find(Transactions.BidsOf(bids), key);
    m := BidIsSeen(q, a, bids, k);
  }

  lemma BidIsSeen(q: seq<OutboxRow>, a: Uuid, bids: seq<Transactions.BidRow>, k: nat) returns (m: nat)
    requires OncePerBid(q, a, bids) && k < |bids|
    ensures m < |q| && q[m].event.bid.auctionId == a && q[m].event.bid == bids[k].bid
  {
    assert Announced(q, a, bids[k]);
    m :| m < |q| && q[m].event.bid.auctionId == a && q[m].event.bid == bids[k].bid;
  }

  lemma SameKeySameEvent(q: seq<OutboxRow>, a: Uuid, bids: seq<Transactions.BidRow>, l: nat, m: nat)
    requires OncePerBid(q, a, bids) && Transactions.DistinctKeys(Transactions.BidsOf(bids))
    requires l < |q| && m < |q| && q[l].event.bid.auctionId == a && q[m].event.bid.auctionId == a
    requires q[l].event.bid.key == q[m].event.bid.key
    ensures l == m
  {
    hide Announced;
    var i, j := q[l].event.seqNo - 1, q[m].event.seqNo - 1;
    assert Transactions.BidsOf(bids)[i].key == Transactions.BidsOf(bids)[j].key;
  }
}
