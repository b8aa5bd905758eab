/** The order in which one relay at a time publishes, and what a reader that drops repeated event
    identifiers sees. */
module OutboxOrder {
  import opened Domain
  import opened Ledger
  import opened Outbox

  function SeqNo(r: Row): int { r.data.event.seqNo }
  function AuctionId(r: Row): Uuid { r.data.event.bid.auctionId }

  predicate HasNumber(rows: seq<Row>, a: Uuid, n: int) {
    exists j :: 0 <= j < |rows| && AuctionId(rows[j]) == a && SeqNo(rows[j]) == n
  }

  /** Within each auction, rows come in the order of their numbers and of their creation times,
      and the numbers start at 1 without a gap. */
  predicate Sequenced(rows: seq<Row>) {
    && (forall i, j :: 0 <= i < j < |rows| && AuctionId(rows[i]) == AuctionId(rows[j]) ==>
          && SeqNo(rows[i]) < SeqNo(rows[j])
          && rows[i].data.stamp.createdAt < rows[j].data.stamp.createdAt)
    && (forall i :: 0 <= i < |rows| ==>
          && SeqNo(rows[i]) >= 1
          && (SeqNo(rows[i]) > 1 ==> HasNumber(rows, AuctionId(rows[i]), SeqNo(rows[i]) - 1)))
  }

  /** One auction's numbers on the channel. */
  function Numbers(channel: seq<OutboxRow>, a: Uuid): seq<int> {
    if channel == [] then []
    else
      var d := channel[|channel| - 1];
      Numbers(channel[..|channel| - 1], a)
        + if d.event.bid.auctionId == a then [d.event.seqNo] else []
  }

  /** Starts at 1 and at each message stays or rises by one. */
  predicate Stutters(q: seq<int>) {
    q != [] ==> q[0] == 1 && forall k :: 0 < k < |q| ==> q[k - 1] <= q[k] <= q[k - 1] + 1
  }

  function Top(q: seq<int>): int {
    if q == [] then 0 else q[|q| - 1]
  }

  /** What is below the last number sent is published, and nothing above it is. */
  predicate RowOk(s: Sys, i: nat)
    requires i < |s.rows|
  {
    var top := Top(Numbers(s.channel, AuctionId(s.rows[i])));
    && (SeqNo(s.rows[i]) < top ==> s.rows[i].published)
    && (SeqNo(s.rows[i]) > top ==> !s.rows[i].published)
  }

  /** Everything before a row that a relay holds is published, and what it has sent is the last. */
  predicate HolderOk(s: Sys, r: nat)
    requires r in s.relays && s.relays[r].row < |s.rows|
  {
    var row := s.rows[s.relays[r].row];
    && (forall j :: (0 <= j < |s.rows| && AuctionId(s.rows[j]) == AuctionId(row)
                     && SeqNo(s.rows[j]) < SeqNo(row)) ==> s.rows[j].published)
    && (s.relays[r].sent ==> Top(Numbers(s.channel, AuctionId(row))) == SeqNo(row))
  }

  predicate OneRelay(s: Sys) {
    forall q, r :: q in s.relays && r in s.relays ==> q == r
  }

  ghost predicate OrderInv(s: Sys) {
    && Inv(s)
    && (forall i :: 0 <= i < |s.rows| ==> RowOk(s, i))
    && (forall r :: r in s.relays ==> HolderOk(s, r))
    && (forall a :: Stutters(Numbers(s.channel, a)))
  }

  lemma NumbersAppend(channel: seq<OutboxRow>, d: OutboxRow, a: Uuid)
    ensures Numbers(channel + [d], a)
              == Numbers(channel, a) + if d.event.bid.auctionId == a then [d.event.seqNo] else []
  {
    assert (channel + [d])[..|channel|] == channel;
  }

  lemma {:induction false} TopIsSent(channel: seq<OutboxRow>, a: Uuid)
    requires Numbers(channel, a) != []
    ensures exists k :: 0 <= k < |channel| && channel[k].event.bid.auctionId == a
                        && channel[k].event.seqNo == Top(Numbers(channel, a))
  {
    var n := |channel| - 1;
    if channel[n].event.bid.auctionId != a {
      TopIsSent(channel[..n], a);
      var k :| 0 <= k < n && channel[..n][k].event.bid.auctionId == a
               && channel[..n][k].event.seqNo == Top(Numbers(channel[..n], a));
      assert channel[k] == channel[..n][k];
    }
  }

  /** A new row is beyond everything sent of its auction. */
  lemma NewRowOk(s: Sys, s': Sys, data: OutboxRow)
    requires Inv(s) && s' == s.(rows := s.rows + [Row(data, false, 0)]) && Sequenced(s'.rows)
    ensures RowOk(s', |s.rows|)
  {
    hide Inv;
    var n := |s.rows|;
    var q := Numbers(s.channel, AuctionId(s'.rows[n]));
    if q != [] {
      SentNumberHasRow(s, AuctionId(s'.rows[n]));
      var j :| 0 <= j < n && AuctionId(s.rows[j]) == AuctionId(s'.rows[n]) && SeqNo(s.rows[j]) == Top(q);
      assert SeqNo(s'.rows[j]) < SeqNo(s'.rows[n]);
    }
  }

  lemma InsertKeepsHolder(s: Sys, s': Sys, data: OutboxRow, r: nat)
    requires s' == s.(rows := s.rows + [Row(data, false, 0)]) && Sequenced(s'.rows)
    requires r in s.relays && s.relays[r].row < |s.rows| && HolderOk(s, r)
    ensures HolderOk(s', r)
  {
    var h, n := s.relays[r].row, |s.rows|;
    if AuctionId(s'.rows[h]) == AuctionId(s'.rows[n]) {
      assert SeqNo(s'.rows[h]) < SeqNo(s'.rows[n]);
    }
  }

  lemma InsertKeepsOrder(s: Sys, data: OutboxRow)
    requires OrderInv(s) && Enabled(s, Insert(data)) && Sequenced(Next(s, Insert(data)).rows)
    ensures OrderInv(Next(s, Insert(data)))
  {
    hide Inv, HolderOk, Sequenced;
    var s' := Next(s, Insert(data));
    StepKeepsInv(s, Insert(data));
    NewRowOk(s, s', data);
    forall i | 0 <= i < |s.rows| ensures RowOk(s', i) {
      assert RowOk(s, i);
    }
    HoldersInRange(s);
    forall r | r in s'.relays ensures HolderOk(s', r) {
      InsertKeepsHolder(s, s', data, r);
    }
  }

  lemma HoldersInRange(s: Sys)
    requires Inv(s)
    ensures forall r :: r in s.relays ==>
              s.relays[r].row < |s.rows| && !s.rows[s.relays[r].row].published
              && (s.relays[r].marked ==> s.relays[r].sent)
  {
  }

  lemma SentNumberHasRow(s: Sys, a: Uuid)
    requires Inv(s) && Numbers(s.channel, a) != []
    ensures HasNumber(s.rows, a, Top(Numbers(s.channel, a)))
  {
    TopIsSent(s.channel, a);
    var k :| 0 <= k < |s.channel| && s.channel[k].event.bid.auctionId == a
             && s.channel[k].event.seqNo == Top(Numbers(s.channel, a));
    assert IsRow(s.rows, s.channel[k]);
    var i :| 0 <= i < |s.rows| && s.rows[i].data == s.channel[k];
    assert AuctionId(s.rows[i]) == a && SeqNo(s.rows[i]) == Top(Numbers(s.channel, a));
  }

  lemma SelectKeepsOrder(s: Sys, r: nat, i: nat)
    requires OrderInv(s) && Enabled(s, Select(r, i)) && Sequenced(s.rows)
    requires OneRelay(Next(s, Select(r, i)))
    ensures OrderInv(Next(s, Select(r, i)))
  {
    hide Inv;
    var s' := Next(s, Select(r, i));
    StepKeepsInv(s, Select(r, i));
    assert forall q :: q in s.relays ==> q in s'.relays && r in s'.relays;
    assert s.relays == map[];
    forall j | 0 <= j < |s.rows| ensures RowOk(s', j) {
      assert RowOk(s, j);
    }
    forall j | 0 <= j < |s.rows| && AuctionId(s.rows[j]) == AuctionId(s.rows[i])
               && SeqNo(s.rows[j]) < SeqNo(s.rows[i])
      ensures s.rows[j].published
    {
      assert Available(s, j) ==> Before(s.rows[i].data, s.rows[j].data);
    }
  }

  /** The number that a holder sends next is the last one sent or the one after it. */
  lemma HolderIsNext(s: Sys, r: nat)
    requires OrderInv(s) && Sequenced(s.rows) && r in s.relays
    ensures s.relays[r].row < |s.rows|
    ensures var row := s.rows[s.relays[r].row];
            var top := Top(Numbers(s.channel, AuctionId(row)));
            top <= SeqNo(row) <= top + 1
  {
    hide Inv;
    HoldersInRange(s);
    var h := s.relays[r].row;
    var row := s.rows[h];
    var top := Top(Numbers(s.channel, AuctionId(row)));
    assert RowOk(s, h) && HolderOk(s, r);
    if Numbers(s.channel, AuctionId(row)) != [] {
      assert Stutters(Numbers(s.channel, AuctionId(row)));
      StutterPositive(Numbers(s.channel, AuctionId(row)));
    }
    if SeqNo(row) > 1 {
      var j :| 0 <= j < |s.rows| && AuctionId(s.rows[j]) == AuctionId(row)
               && SeqNo(s.rows[j]) == SeqNo(row) - 1;
      assert RowOk(s, j);
    }
  }

  lemma {:induction false} StutterPositive(q: seq<int>)
    requires Stutters(q) && q != []
    ensures q[|q| - 1] >= 1
  {
    if |q| > 1 {
      assert q[|q| - 2] == q[..|q| - 1][|q| - 2];
      StutterPositive(q[..|q| - 1]);
    }
  }

  lemma StutterMore(q: seq<int>, n: int)
    requires Stutters(q) && Top(q) <= n <= Top(q) + 1 && n >= 1
    ensures Stutters(q + [n])
  {
  }

  lemma PublishKeepsOrder(s: Sys, r: nat)
    requires OrderInv(s) && Enabled(s, Publish(r)) && Sequenced(s.rows) && OneRelay(s)
    ensures OrderInv(Next(s, Publish(r)))
  {
    hide Inv;
    var s' := Next(s, Publish(r));
    var row := s.rows[s.relays[r].row];
    StepKeepsInv(s, Publish(r));
    HolderIsNext(s, r);
    assert HolderOk(s, r);
    forall a ensures Stutters(Numbers(s'.channel, a)) {
      NumbersAppend(s.channel, row.data, a);
      assert Stutters(Numbers(s.channel, a));
      if a == AuctionId(row) {
        StutterMore(Numbers(s.channel, a), SeqNo(row));
      } else {
        assert Numbers(s'.channel, a) == Numbers(s.channel, a);
      }
    }
    NumbersAppend(s.channel, row.data, AuctionId(row));
    forall j | 0 <= j < |s.rows| ensures RowOk(s', j) {
      assert RowOk(s, j);
      NumbersAppend(s.channel, row.data, AuctionId(s.rows[j]));
    }
    assert HolderOk(s', r);
  }

  lemma MarkKeepsOrder(s: Sys, r: nat)
    requires OrderInv(s) && Enabled(s, Mark(r))
    ensures OrderInv(Next(s, Mark(r)))
  {
    hide Inv;
    var s' := Next(s, Mark(r));
    StepKeepsInv(s, Mark(r));
    HoldersInRange(s);
    forall j | 0 <= j < |s.rows| ensures RowOk(s', j) {
      assert RowOk(s, j);
    }
    forall q | q in s'.relays ensures HolderOk(s', q) {
      assert HolderOk(s, q);
    }
  }

  lemma EndKeepsOrder(s: Sys, r: nat, step: Step)
    requires OrderInv(s) && Enabled(s, step) && OneRelay(s)
    requires step == Commit(r) || step == Abort(r)
    ensures OrderInv(Next(s, step))
  {
    hide Inv;
    var s' := Next(s, step);
    StepKeepsInv(s, step);
    HoldersInRange(s);
    assert HolderOk(s, r);
    forall j | 0 <= j < |s.rows| ensures RowOk(s', j) {
      assert RowOk(s, j);
    }
    assert s'.relays.Keys == {};
  }

  lemma StepKeepsOrder(s: Sys, step: Step)
    requires OrderInv(s) && Enabled(s, step) && Sequenced(s.rows) && Sequenced(Next(s, step).rows)
    requires OneRelay(s) && OneRelay(Next(s, step))
    ensures OrderInv(Next(s, step))
  {
    hide OrderInv, Enabled, Next, Sequenced, OneRelay;
    match step
    case Insert(data) => InsertKeepsOrder(s, data);
    case Select(r, i) => SelectKeepsOrder(s, r, i);
    case Publish(r) => PublishKeepsOrder(s, r);
    case Mark(r) => MarkKeepsOrder(s, r);
    case Commit(r) => EndKeepsOrder(s, r, step);
    case Abort(r) => EndKeepsOrder(s, r, step);
  }

  /** Stuttering order: with one relay transaction at a time over rows that are sequenced within
      each auction, each auction's raw messages start at 1 and at each message repeat the number
      or rise by one, whatever crashes occur between sending and marking. */
  lemma {:induction false} StutteringOrder(states: seq<Sys>, steps: seq<Step>, n: nat)
    requires Run(states, steps) && states[0] == EMPTY && n < |states|
    requires forall i :: 0 <= i < |states| ==> Sequenced(states[i].rows) && OneRelay(states[i])
    ensures OrderInv(states[n])
    ensures forall a :: Stutters(Numbers(states[n].channel, a))
  {
    hide Enabled, Next, Sequenced, OneRelay;
    if n > 0 {
      StutteringOrder(states, steps, n - 1);
      StepKeepsOrder(states[n - 1], steps[n - 1]);
    }
  }

  // ---- The reader that drops repeated event identifiers ----

  predicate Seen(q: seq<OutboxRow>, id: Uuid) {
    exists k :: 0 <= k < |q| && q[k].stamp.id == id
  }

  function FirstSeen(channel: seq<OutboxRow>): seq<OutboxRow> {
    if channel == [] then []
    else
      var d := channel[|channel| - 1];
      var before := FirstSeen(channel[..|channel| - 1]);
      if Seen(before, d.stamp.id) then before else before + [d]
  }

  predicate DistinctIds(q: seq<OutboxRow>) {
    forall i, j :: 0 <= i < j < |q| ==> q[i].stamp.id != q[j].stamp.id
  }

  lemma {:induction false} FirstSeenIds(channel: seq<OutboxRow>, id: Uuid)
    ensures Seen(FirstSeen(channel), id) <==> Seen(channel, id)
  {
    if channel != [] {
      var n := |channel| - 1;
      var d := channel[n];
      var before := FirstSeen(channel[..n]);
      FirstSeenIds(channel[..n], id);
      if Seen(channel, id) && d.stamp.id != id {
        var k :| 0 <= k < |channel| && channel[k].stamp.id == id;
        assert channel[..n][k].stamp.id == id;
      }
      if Seen(before, id) {
        var k :| 0 <= k < |before| && before[k].stamp.id == id;
        assert FirstSeen(channel)[k].stamp.id == id;
        var m :| 0 <= m < n && channel[..n][m].stamp.id == id;
        assert channel[m].stamp.id == id;
      }
      if d.stamp.id == id && !Seen(before, id) {
        assert FirstSeen(channel)[|before|].stamp.id == id;
      }
    }
  }

  lemma {:induction false} FirstSeenDistinct(channel: seq<OutboxRow>)
    ensures DistinctIds(FirstSeen(channel))
    ensures forall d :: d in FirstSeen(channel) ==> d in channel
  {
    if channel != [] {
      FirstSeenDistinct(channel[..|channel| - 1]);
    }
  }

  lemma {:induction false} DistinctCount(q: seq<OutboxRow>, d: OutboxRow)
    requires DistinctIds(q)
    ensures multiset(q)[d] == if d in q then 1 else 0
  {
    if q != [] {
      DistinctCount(q[..|q| - 1], d);
      assert q == q[..|q| - 1] + [q[|q| - 1]];
      assert forall k :: 0 <= k < |q| - 1 ==> q[k] != q[|q| - 1];
    }
  }

  function Data(rows: seq<Row>): (q: seq<OutboxRow>)
    ensures |q| == |rows| && forall i :: 0 <= i < |rows| ==> q[i] == rows[i].data
  {
    seq(|rows|, i requires 0 <= i < |rows| => rows[i].data)
  }

  /** Exactly once: when nothing is left to publish, the channel without repeated identifiers
      holds every committed event once and nothing else. */
  lemma DrainedExactlyOnce(s: Sys)
    requires Inv(s) && forall i :: 0 <= i < |s.rows| ==> s.rows[i].published
    ensures multiset(FirstSeen(s.channel)) == multiset(Data(s.rows))
  {
    var q, all := FirstSeen(s.channel), Data(s.rows);
    FirstSeenDistinct(s.channel);
    forall d ensures multiset(q)[d] == multiset(all)[d] {
      DistinctCount(q, d);
      DistinctCount(all, d);
      SeenExactly(s, d);
    }
  }

  lemma SeenExactly(s: Sys, d: OutboxRow)
    requires Inv(s) && forall i :: 0 <= i < |s.rows| ==> s.rows[i].published
    ensures d in FirstSeen(s.channel) <==> d in Data(s.rows)
  {
    FirstSeenDistinct(s.channel);
    if d in s.channel {
      var k :| 0 <= k < |s.channel| && s.channel[k] == d;
      assert IsRow(s.rows, s.channel[k]);
      var i :| 0 <= i < |s.rows| && s.rows[i].data == d;
      assert Data(s.rows)[i] == d;
    }
    if d in Data(s.rows) {
      var i :| 0 <= i < |s.rows| && Data(s.rows)[i] == d;
      assert Balanced(s, i);
      assert d in multiset(s.channel);
      var k :| 0 <= k < |s.channel| && s.channel[k] == d;
      FirstSeenIds(s.channel, d.stamp.id);
      var q := FirstSeen(s.channel);
      var m :| 0 <= m < |q| && q[m].stamp.id == d.stamp.id;
      assert q[m] in s.channel;
      var h :| 0 <= h < |s.channel| && s.channel[h] == q[m];
      assert IsRow(s.rows, s.channel[h]);
      var j :| 0 <= j < |s.rows| && s.rows[j].data == q[m];
      assert i == j;
    }
  }

  /** On the channel an identifier means an auction and a number, and the other way round. */
  predicate IdsAreNumbers(channel: seq<OutboxRow>) {
    forall j, k :: 0 <= j < |channel| && 0 <= k < |channel| ==>
      (channel[j].stamp.id == channel[k].stamp.id <==>
       channel[j].event.bid.auctionId == channel[k].event.bid.auctionId
       && channel[j].event.seqNo == channel[k].event.seqNo)
  }

  lemma ChannelIds(s: Sys)
    requires Inv(s) && Sequenced(s.rows)
    ensures IdsAreNumbers(s.channel)
  {
    forall j, k | 0 <= j < |s.channel| && 0 <= k < |s.channel|
      ensures s.channel[j].stamp.id == s.channel[k].stamp.id <==>
              s.channel[j].event.bid.auctionId == s.channel[k].event.bid.auctionId
              && s.channel[j].event.seqNo == s.channel[k].event.seqNo
    {
      assert IsRow(s.rows, s.channel[j]) && IsRow(s.rows, s.channel[k]);
      var g :| 0 <= g < |s.rows| && s.rows[g].data == s.channel[j];
      var h :| 0 <= h < |s.rows| && s.rows[h].data == s.channel[k];
      assert AuctionId(s.rows[g]) == s.channel[j].event.bid.auctionId;
      assert AuctionId(s.rows[h]) == s.channel[k].event.bid.auctionId;
      assert SeqNo(s.rows[g]) == s.channel[j].event.seqNo;
      assert SeqNo(s.rows[h]) == s.channel[k].event.seqNo;
    }
  }

  function OneTo(n: int): seq<int> {
    if n <= 0 then [] else OneTo(n - 1) + [n]
  }

  lemma {:induction false} OneToCounts(n: nat)
    ensures |OneTo(n)| == n && forall i :: 0 <= i < n ==> OneTo(n)[i] == i + 1
  {
    if n > 0 {
      OneToCounts(n - 1);
    }
  }

  lemma {:induction false} NumbersBelowTop(channel: seq<OutboxRow>, a: Uuid, k: nat)
    requires Stutters(Numbers(channel, a))
    requires k < |channel| && channel[k].event.bid.auctionId == a
    ensures channel[k].event.seqNo <= Top(Numbers(channel, a))
  {
    var n := |channel| - 1;
    var q := Numbers(channel[..n], a);
    if k < n {
      StutterPrefix(channel, a);
      assert channel[..n][k] == channel[k];
      NumbersBelowTop(channel[..n], a, k);
      if channel[n].event.bid.auctionId == a && q != [] {
        assert Numbers(channel, a)[|q| - 1] <= Numbers(channel, a)[|q|];
      }
      if q == [] {
        NumberIsListed(channel[..n], a, k);
      }
    }
  }

  lemma {:induction false} NumberIsListed(channel: seq<OutboxRow>, a: Uuid, k: nat)
    requires k < |channel| && channel[k].event.bid.auctionId == a
    ensures Numbers(channel, a) != []
  {
    if k < |channel| - 1 {
      assert channel[..|channel| - 1][k] == channel[k];
      NumberIsListed(channel[..|channel| - 1], a, k);
    }
  }

  lemma StutterPrefix(channel: seq<OutboxRow>, a: Uuid)
    requires channel != [] && Stutters(Numbers(channel, a))
    ensures Stutters(Numbers(channel[..|channel| - 1], a))
    ensures var d := channel[|channel| - 1];
            d.event.bid.auctionId == a ==>
              var top := Top(Numbers(channel[..|channel| - 1], a));
              1 <= d.event.seqNo && top <= d.event.seqNo <= top + 1
  {
    var q := Numbers(channel[..|channel| - 1], a);
    var d := channel[|channel| - 1];
    if d.event.bid.auctionId == a {
      assert Numbers(channel, a) == q + [d.event.seqNo];
      StutterSplit(q, d.event.seqNo);
    } else {
      assert Numbers(channel, a) == q;
    }
  }

  lemma StutterSplit(q: seq<int>, n: int)
    requires Stutters(q + [n])
    ensures Stutters(q) && n >= 1 && Top(q) <= n <= Top(q) + 1
  {
    var q' := q + [n];
    assert q'[|q|] == n;
    assert forall k :: 0 <= k < |q| ==> q'[k] == q[k];
    if q != [] {
      StutterPositive(q');
    }
  }

  /** A reader that drops repeated identifiers sees each auction's events as 1, 2, 3 and so on. */
  lemma {:induction false} DedupCountsUp(channel: seq<OutboxRow>, a: Uuid)
    requires Stutters(Numbers(channel, a)) && IdsAreNumbers(channel)
    ensures Numbers(FirstSeen(channel), a) == OneTo(Top(Numbers(channel, a)))
  {
    if channel != [] {
      var n := |channel| - 1;
      var d := channel[n];
      var before := channel[..n];
      StutterPrefix(channel, a);
      assert forall k :: 0 <= k < n ==> before[k] == channel[k];
      DedupCountsUp(before, a);
      FirstSeenIds(before, d.stamp.id);
      if d.event.bid.auctionId != a {
        NumbersAppend(FirstSeen(before), d, a);
      } else if d.event.seqNo == Top(Numbers(before, a)) {
        TopIsSent(before, a);
        var k :| 0 <= k < n && before[k].event.bid.auctionId == a && before[k].event.seqNo == d.event.seqNo;
        assert channel[k].stamp.id == channel[n].stamp.id;
        assert before[k].stamp.id == d.stamp.id;
      } else {
        if Seen(before, d.stamp.id) {
          var k :| 0 <= k < n && before[k].stamp.id == d.stamp.id;
          assert channel[k].stamp.id == channel[n].stamp.id;
          NumbersBelowTop(before, a, k);
        }
        NumbersAppend(FirstSeen(before), d, a);
      }
    }
  }
}
