/** The order in which subscribers see an auction's bids, from the pipeline as a whole, when one
    relay transaction is open at a time. */
module Delivery {
  import opened Domain
  import opened Ledger
  import opened Settlement
  import opened Pipeline
  import opened EndToEnd
  import Transactions
  import Refinement
  import Snapshots
  import Outbox
  import opened OutboxOrder
  import opened Histories

  /** Hypothesis: PostgreSQL's clock is read strictly later by a later statement. */
  ghost predicate StrictClock(worlds: seq<World>, steps: seq<Step>)
    requires |worlds| == |steps| + 1
  {
    forall i :: 0 <= i < |steps| && steps[i].LedgerStep? ==>
      Snapshots.ReadsLater(worlds[i].ledger, steps[i].step)
  }

  predicate OneRelayAtATime(worlds: seq<World>) {
    forall i :: 0 <= i < |worlds| ==> OneRelay(worlds[i].relay)
  }

  lemma StampsInOrder(c: Config, worlds: seq<World>, steps: seq<Step>, n: nat)
    requires Run(c, worlds, steps) && Initial(worlds[0]) && n < |worlds|
    requires StrictClock(worlds, steps)
    ensures Snapshots.StampsOrdered(worlds[n].ledger)
  {
    hide Snapshots.StampsOrdered, Snapshots.StampsBefore, Enabled, Next, Transactions.Enabled,
         Transactions.Next;
    var states, moves := LedgerRun(c, worlds, steps, n);
    forall j | 0 <= j < |moves| ensures Snapshots.ReadsLater(states[j], moves[j]) {
      assert ComesFrom(c, worlds, steps, states[j], moves[j]);
    }
    Snapshots.StampsFollowSequence(states, moves, |moves|);
  }

  lemma WorldSequenced(c: Config, worlds: seq<World>, steps: seq<Step>, n: nat)
    requires Run(c, worlds, steps) && Initial(worlds[0]) && n < |worlds|
    requires OnlyAntiSnipe(steps) && NoBidsYet(worlds[0]) && StrictClock(worlds, steps)
    ensures Sequenced(worlds[n].relay.rows)
  {
    hide Next, Enabled, LedgerOk, RelayOk, GroupOk, WorkersOk, AckedOk, Sequenced, NumberedEvents,
         EventsAreBids, Snapshots.StampsOrdered, StrictClock, NumbersRise;
    RunKeepsInv(c, worlds, steps, n);
    WorldEvents(c, worlds, steps, n);
    StampsInOrder(c, worlds, steps, n);
    RelayShowsOutbox(worlds[n].relay, worlds[n].ledger.db.outbox);
    RowsSequenced(worlds[n].relay.rows, worlds[n].ledger);
  }

  lemma StepKeepsRelayOrder(c: Config, book0: Book, w: World, step: Step)
    requires Inv(c, book0, w) && Enabled(c, w, step) && OrderInv(w.relay)
    requires Sequenced(w.relay.rows) && Sequenced(Next(c, w, step).relay.rows)
    requires OneRelay(w.relay) && OneRelay(Next(c, w, step).relay)
    ensures OrderInv(Next(c, w, step).relay)
  {
    hide OrderInv, Sequenced, OneRelay, LedgerOk, RelayOk, GroupOk, WorkersOk, AckedOk, Shown,
         Refinement.Inv, Snapshots.DistinctIds, Transactions.Next, Transactions.Enabled,
         Outbox.Next, Outbox.Enabled;
    match step
    case LedgerStep(inner) =>
      var before, after := w.ledger.db.outbox, Transactions.Next(w.ledger, inner).db.outbox;
      LedgerHasInv(book0, w.ledger);
      OutboxStep(w.ledger, inner);
      ShownKeepsRelay(w.relay, before, after);
      if before == after {
        ShowsNothing(w.relay, after);
      } else {
        StepKeepsOrder(w.relay, Outbox.Insert(after[|before|]));
      }
    case RelayStep(move) => StepKeepsOrder(w.relay, move);
    case _ =>
  }

  lemma ShowsNothing(relay: Outbox.Sys, outbox: seq<OutboxRow>)
    requires RelayOk(relay, outbox)
    ensures Shown(relay, outbox) == relay
  {
  }

  lemma {:induction false} RelayOrderStays(c: Config, worlds: seq<World>, steps: seq<Step>, n: nat)
    requires Run(c, worlds, steps) && Initial(worlds[0]) && n < |worlds|
    requires OnlyAntiSnipe(steps) && NoBidsYet(worlds[0])
    requires StrictClock(worlds, steps) && OneRelayAtATime(worlds)
    ensures OrderInv(worlds[n].relay)
  {
    hide Next, Enabled, Inv, StrictClock, OnlyAntiSnipe, Sequenced, OneRelay, OrderInv;
    if n > 0 {
      RelayOrderStays(c, worlds, steps, n - 1);
      RunKeepsInv(c, worlds, steps, n - 1);
      WorldSequenced(c, worlds, steps, n - 1);
      WorldSequenced(c, worlds, steps, n);
      StepKeepsRelayOrder(c, Refinement.BookOf(worlds[0].ledger.db), worlds[n - 1], steps[n - 1]);
    } else {
      EmptyInOrder();
    }
  }

  lemma EmptyInOrder()
    ensures OrderInv(Outbox.EMPTY)
  {
  }

  /** With everything published, the last number sent is the number of bids. */
  lemma TopIsLast(relay: Outbox.Sys, outbox: seq<OutboxRow>, a: Uuid, bids: seq<Transactions.BidRow>)
    requires OrderInv(relay) && RelayOk(relay, outbox) && EventsAreBids(outbox, a, bids)
    requires Drained(relay)
    ensures Top(Numbers(relay.channel, a)) == |bids|
  {
    hide Outbox.Inv, EventsAreBids;
    var q := Numbers(relay.channel, a);
    if q != [] {
      SentNumberHasRow(relay, a);
      var j: nat :| j < |relay.rows| && AuctionId(relay.rows[j]) == a && SeqNo(relay.rows[j]) == Top(q);
      RowIsBid(outbox, a, bids, j);
    }
    if bids != [] {
      var i := BidHasNumber(outbox, a, bids, |bids| - 1);
      assert RowOk(relay, i);
    }
  }

  lemma BidHasNumber(outbox: seq<OutboxRow>, a: Uuid, bids: seq<Transactions.BidRow>, k: nat)
    returns (i: nat)
    requires EventsAreBids(outbox, a, bids) && k < |bids|
    ensures i < |outbox| && outbox[i].event.bid.auctionId == a && outbox[i].event.seqNo == k + 1
  {
    i := EventHasRow(outbox, a, k);
  }

  /** In every reachable world, whatever workers and relays crashed: an auction's raw messages start
      at 1 and repeat a number or rise by one; without repeated identifiers they are 1, 2, 3 and so
      on; and once nothing is left to publish they count up to the auction's last bid. */
  lemma DeliveredInOrder(c: Config, worlds: seq<World>, steps: seq<Step>, n: nat, a: Uuid)
    requires Run(c, worlds, steps) && Initial(worlds[0]) && n < |worlds|
    requires OnlyAntiSnipe(steps) && NoBidsYet(worlds[0])
    requires StrictClock(worlds, steps) && OneRelayAtATime(worlds)
    ensures var channel := worlds[n].relay.channel;
            && Stutters(Numbers(channel, a))
            && Numbers(FirstSeen(channel), a) == OneTo(Top(Numbers(channel, a)))
            && (Drained(worlds[n].relay) && a in worlds[n].ledger.db.auctions ==>
                  Numbers(FirstSeen(channel), a) == OneTo(|worlds[n].ledger.db.auctions[a].bids|))
    ensures var raw, seen := Numbers(worlds[n].relay.channel, a),
                             Numbers(FirstSeen(worlds[n].relay.channel), a);
            && (raw != [] ==> raw[0] == 1)
            && (forall k :: 0 < k < |raw| ==> raw[k] == raw[k - 1] || raw[k] == raw[k - 1] + 1)
            && (forall k :: 0 <= k < |seen| ==> seen[k] == k + 1)
            && (Drained(worlds[n].relay) && a in worlds[n].ledger.db.auctions ==>
                  |seen| == |worlds[n].ledger.db.auctions[a].bids|)
  {
    hide Next, Enabled, StrictClock, OnlyAntiSnipe, Sequenced, OneRelay, LedgerOk, GroupOk,
         WorkersOk, AckedOk, EventsAreBids, NumberedEvents, Numbers, FirstSeen, Stutters, RowOk,
         HolderOk, Outbox.Inv, OneTo, Top, IdsAreNumbers;
    RunKeepsInv(c, worlds, steps, n);
    WorldSequenced(c, worlds, steps, n);
    RelayOrderStays(c, worlds, steps, n);
    ChannelIds(worlds[n].relay);
    DedupCountsUp(worlds[n].relay.channel, a);
    CountingSpelled(Numbers(worlds[n].relay.channel, a), Numbers(FirstSeen(worlds[n].relay.channel), a));
    if Drained(worlds[n].relay) && a in worlds[n].ledger.db.auctions {
      WorldEvents(c, worlds, steps, n);
      TopIsLast(worlds[n].relay, worlds[n].ledger.db.outbox, a, worlds[n].ledger.db.auctions[a].bids);
      OneToCounts(|worlds[n].ledger.db.auctions[a].bids|);
    }
  }

  lemma CountingSpelled(raw: seq<int>, seen: seq<int>)
    requires Stutters(raw) && seen == OneTo(Top(raw))
    ensures raw != [] ==> raw[0] == 1
    ensures forall k :: 0 < k < |raw| ==> raw[k] == raw[k - 1] || raw[k] == raw[k - 1] + 1
    ensures forall k :: 0 <= k < |seen| ==> seen[k] == k + 1
  {
    if raw != [] {
      StutterPositive(raw);
      OneToCounts(Top(raw));
    }
  }
}
