/** The transactional outbox with any number of relays.

    A relay locks the first unpublished row that nobody has locked, sends it to the channel,
    marks it and commits. It may be rolled back between any two of these steps; what it has sent
    stays sent. */
module Outbox {
  import opened Ledger

  /** A committed row: what the ledger wrote, and the two columns that only relays update. */
  datatype Row = Row(data: OutboxRow, published: bool, attempts: nat)

  /** A relay's open transaction: the row it has locked, and how far it has got. */
  datatype Attempt = Attempt(row: nat, sent: bool, marked: bool)

  /** `wasted` is a history: what was sent by attempts that were then rolled back. */
  datatype Sys = Sys(
    rows: seq<Row>,
    relays: map<nat, Attempt>,
    channel: seq<OutboxRow>,
    wasted: multiset<OutboxRow>)

  datatype Step =
    | Insert(data: OutboxRow)
    | Select(relay: nat, row: nat)
    | Publish(relay: nat)
    | Mark(relay: nat)
    | Commit(relay: nat)
    | Abort(relay: nat)

  predicate Before(r: OutboxRow, s: OutboxRow) {
    r.stamp.createdAt < s.stamp.createdAt
    || (r.stamp.createdAt == s.stamp.createdAt && r.stamp.id < s.stamp.id)
  }

  predicate Locked(s: Sys, i: nat) {
    exists r :: r in s.relays && s.relays[r].row == i
  }

  predicate Available(s: Sys, i: nat) {
    i < |s.rows| && !s.rows[i].published && !Locked(s, i)
  }

  /** `ORDER BY created_at, id FOR UPDATE SKIP LOCKED LIMIT 1`. */
  ghost predicate FirstAvailable(s: Sys, i: nat) {
    && Available(s, i)
    && forall j: nat :: Available(s, j) && j != i ==> Before(s.rows[i].data, s.rows[j].data)
  }

  /** What a relay locks is, among the unpublished rows that nobody has locked, the one created first,
      and among those created at one time the one with the least identifier. */
  lemma SelectsOldest(s: Sys, r: nat, i: nat, j: nat)
    requires Enabled(s, Select(r, i))
    requires j < |s.rows| && !s.rows[j].published && j != i
    requires forall q :: q in s.relays ==> s.relays[q].row != j
    ensures i < |s.rows| && !s.rows[i].published && forall q :: q in s.relays ==> s.relays[q].row != i
    ensures var d, e := s.rows[i].data.stamp, s.rows[j].data.stamp;
            d.createdAt < e.createdAt || (d.createdAt == e.createdAt && d.id < e.id)
  {
    assert Available(s, j);
  }

  ghost predicate Enabled(s: Sys, step: Step) {
    match step
    case Insert(data) => forall i :: 0 <= i < |s.rows| ==> s.rows[i].data.stamp.id != data.stamp.id
    case Select(r, i) => r !in s.relays && FirstAvailable(s, i)
    case Publish(r) => r in s.relays && !s.relays[r].sent && s.relays[r].row < |s.rows|
    case Mark(r) => r in s.relays && s.relays[r].sent && !s.relays[r].marked
    case Commit(r) => r in s.relays && s.relays[r].marked && s.relays[r].row < |s.rows|
    case Abort(r) => r in s.relays && s.relays[r].row < |s.rows|
  }

  function Next(s: Sys, step: Step): Sys
    requires Enabled(s, step)
  {
    match step
    case Insert(data) => s.(rows := s.rows + [Row(data, false, 0)])
    case Select(r, i) => s.(relays := s.relays[r := Attempt(i, false, false)])
    case Publish(r) =>
      s.(relays := s.relays[r := s.relays[r].(sent := true)],
         channel := s.channel + [s.rows[s.relays[r].row].data])
    case Mark(r) => s.(relays := s.relays[r := s.relays[r].(marked := true)])
    case Commit(r) =>
      var i := s.relays[r].row;
      s.(rows := s.rows[i := s.rows[i].(published := true, attempts := s.rows[i].attempts + 1)],
         relays := s.relays - {r})
    case Abort(r) =>
      s.(relays := s.relays - {r},
         wasted := if s.relays[r].sent then s.wasted + multiset{s.rows[s.relays[r].row].data}
                   else s.wasted)
  }

  ghost predicate Run(states: seq<Sys>, steps: seq<Step>) {
    && |states| == |steps| + 1
    && forall i :: 0 <= i < |steps| ==>
         Enabled(states[i], steps[i]) && states[i + 1] == Next(states[i], steps[i])
  }

  const EMPTY := Sys([], map[], [], multiset{})

  // ---- Accounting ----

  /** Some relay has sent row `i` and not finished. */
  predicate InFlight(s: Sys, i: nat) {
    exists r :: r in s.relays && s.relays[r].row == i && s.relays[r].sent
  }

  predicate DistinctRows(rows: seq<Row>) {
    forall i, j :: 0 <= i < j < |rows| ==> rows[i].data.stamp.id != rows[j].data.stamp.id
  }

  /** Relays hold different rows, none of them published, and mark only what they have sent. */
  predicate RelaysOk(s: Sys) {
    && (forall r :: r in s.relays ==>
          && s.relays[r].row < |s.rows|
          && !s.rows[s.relays[r].row].published
          && (s.relays[r].marked ==> s.relays[r].sent))
    && (forall q, r :: q in s.relays && r in s.relays && q != r ==>
          s.relays[q].row != s.relays[r].row)
  }

  predicate Balanced(s: Sys, i: nat)
    requires i < |s.rows|
  {
    && multiset(s.channel)[s.rows[i].data] ==
         (if s.rows[i].published then 1 else 0) + s.wasted[s.rows[i].data]
         + (if InFlight(s, i) then 1 else 0)
    && s.rows[i].attempts == if s.rows[i].published then 1 else 0
  }

  /** Everything on the channel is a committed row. */
  predicate ChannelOk(s: Sys) {
    forall k :: 0 <= k < |s.channel| ==> IsRow(s.rows, s.channel[k])
  }

  predicate IsRow(rows: seq<Row>, d: OutboxRow) {
    exists i :: 0 <= i < |rows| && rows[i].data == d
  }

  predicate Inv(s: Sys) {
    && DistinctRows(s.rows)
    && RelaysOk(s)
    && (forall i :: 0 <= i < |s.rows| ==> Balanced(s, i))
    && ChannelOk(s)
    && (forall d :: d in s.wasted ==> d in s.channel)
  }

  lemma ChannelStays(s: Sys, s': Sys)
    requires ChannelOk(s) && s'.channel == s.channel && |s.rows| <= |s'.rows|
    requires forall i :: 0 <= i < |s.rows| ==> s'.rows[i].data == s.rows[i].data
    ensures ChannelOk(s')
  {
    forall k | 0 <= k < |s'.channel| ensures IsRow(s'.rows, s'.channel[k]) {
      assert IsRow(s.rows, s.channel[k]);
      var i :| 0 <= i < |s.rows| && s.rows[i].data == s.channel[k];
      assert s'.rows[i].data == s'.channel[k];
    }
  }

  lemma InsertKeepsInv(s: Sys, data: OutboxRow)
    requires Inv(s) && Enabled(s, Insert(data))
    ensures Inv(Next(s, Insert(data)))
  {
    var s' := Next(s, Insert(data));
    forall k | 0 <= k < |s.channel| ensures s.channel[k] != data {
      assert IsRow(s.rows, s.channel[k]);
    }
    forall i | 0 <= i < |s'.rows| ensures Balanced(s', i) {
      if i < |s.rows| {
        assert Balanced(s, i);
        assert InFlight(s', i) == InFlight(s, i);
      }
    }
    ChannelStays(s, s');
  }

  lemma SelectKeepsInv(s: Sys, r: nat, i: nat)
    requires Inv(s) && Enabled(s, Select(r, i))
    ensures Inv(Next(s, Select(r, i)))
  {
    var s' := Next(s, Select(r, i));
    forall q | q in s.relays ensures s.relays[q].row != i {
      assert !Locked(s, i);
    }
    forall j | 0 <= j < |s.rows| ensures Balanced(s', j) {
      assert Balanced(s, j);
      SameFlight(s, s', j);
    }
  }

  /** Row `j` is in flight as before when the relays that have sent it are the same. */
  lemma SameFlight(s: Sys, s': Sys, j: nat)
    requires forall q :: (q in s.relays && s.relays[q].row == j && s.relays[q].sent) <==>
                         (q in s'.relays && s'.relays[q].row == j && s'.relays[q].sent)
    ensures InFlight(s', j) == InFlight(s, j)
  {
  }

  lemma PublishBalances(s: Sys, r: nat, j: nat)
    requires RelaysOk(s) && DistinctRows(s.rows) && Enabled(s, Publish(r))
    requires j < |s.rows| && Balanced(s, j)
    ensures Balanced(Next(s, Publish(r)), j)
  {
    var s' := Next(s, Publish(r));
    if j == s.relays[r].row {
      assert s'.relays[r].sent && InFlight(s', j);
      assert !InFlight(s, j);
    } else {
      assert s.rows[j].data != s.rows[s.relays[r].row].data;
      SameFlight(s, s', j);
    }
  }

  lemma PublishKeepsInv(s: Sys, r: nat)
    requires Inv(s) && Enabled(s, Publish(r))
    ensures Inv(Next(s, Publish(r)))
  {
    hide Balanced;
    var s' := Next(s, Publish(r));
    var i := s.relays[r].row;
    forall j | 0 <= j < |s.rows| ensures Balanced(s', j) {
      PublishBalances(s, r, j);
    }
    forall k | 0 <= k < |s'.channel| ensures IsRow(s'.rows, s'.channel[k]) {
      if k == |s.channel| {
        assert s'.rows[i].data == s'.channel[k];
      } else {
        assert s'.channel[k] == s.channel[k];
      }
    }
  }

  lemma MarkKeepsInv(s: Sys, r: nat)
    requires Inv(s) && Enabled(s, Mark(r))
    ensures Inv(Next(s, Mark(r)))
  {
    var s' := Next(s, Mark(r));
    forall j | 0 <= j < |s.rows| ensures Balanced(s', j) {
      assert Balanced(s, j);
      SameFlight(s, s', j);
    }
  }

  lemma EndBalances(s: Sys, r: nat, step: Step, j: nat)
    requires RelaysOk(s) && DistinctRows(s.rows)
    requires Enabled(s, step) && (step == Commit(r) || step == Abort(r))
    requires j < |s.rows| && Balanced(s, j)
    ensures Balanced(Next(s, step), j)
  {
    var s' := Next(s, step);
    if j == s.relays[r].row {
      assert InFlight(s, j) == s.relays[r].sent;
      assert !InFlight(s', j);
    } else {
      assert s.rows[j].data != s.rows[s.relays[r].row].data;
      SameFlight(s, s', j);
    }
  }

  /** What a relay has sent is on the channel. */
  lemma SentIsThere(s: Sys, r: nat)
    requires Inv(s) && r in s.relays && s.relays[r].sent
    ensures s.rows[s.relays[r].row].data in s.channel
  {
    assert Balanced(s, s.relays[r].row);
    assert InFlight(s, s.relays[r].row);
    assert s.rows[s.relays[r].row].data in multiset(s.channel);
  }

  lemma EndKeepsInv(s: Sys, r: nat, step: Step)
    requires Inv(s) && Enabled(s, step) && (step == Commit(r) || step == Abort(r))
    ensures Inv(Next(s, step))
  {
    hide Balanced, ChannelOk;
    var s' := Next(s, step);
    forall j | 0 <= j < |s.rows| ensures Balanced(s', j) {
      EndBalances(s, r, step, j);
    }
    ChannelStays(s, s');
    if s.relays[r].sent {
      SentIsThere(s, r);
    }
  }

  lemma StepKeepsInv(s: Sys, step: Step)
    requires Inv(s) && Enabled(s, step)
    ensures Inv(Next(s, step))
  {
    hide Inv, Enabled, Next;
    match step
    case Insert(data) => InsertKeepsInv(s, data);
    case Select(r, i) => SelectKeepsInv(s, r, i);
    case Publish(r) => PublishKeepsInv(s, r);
    case Mark(r) => MarkKeepsInv(s, r);
    case Commit(r) => EndKeepsInv(s, r, step);
    case Abort(r) => EndKeepsInv(s, r, step);
  }

  /** Publication accounting, in every reachable state of any number of relays: an event has been
      sent once if it is marked, once for every attempt that sent it and was rolled back, and once
      if an open attempt has sent it. Attempts count the commits, never more than one; no two
      relays hold one event; the update that marks it touches its row. */
  lemma Accounting(states: seq<Sys>, steps: seq<Step>, n: nat, i: nat)
    requires Run(states, steps) && Inv(states[0]) && n < |states| && i < |states[n].rows|
    ensures var s := states[n];
            var d := s.rows[i].data;
            && multiset(s.channel)[d] ==
                 (if s.rows[i].published then 1 else 0) + s.wasted[d]
                 + (if exists r :: r in s.relays && s.relays[r].row == i && s.relays[r].sent then 1 else 0)
            && s.rows[i].attempts == (if s.rows[i].published then 1 else 0)
            && (forall q, r :: q in s.relays && r in s.relays && s.relays[q].row == i == s.relays[r].row ==>
                  q == r && !s.rows[i].published)
            && (forall j :: 0 <= j < |s.rows| && j != i ==> s.rows[j].data.stamp.id != d.stamp.id)
    ensures forall d :: d in states[n].channel ==>
              exists j :: 0 <= j < |states[n].rows| && states[n].rows[j].data == d
  {
    hide Enabled, Next;
    RunKeepsInv(states, steps, n);
    assert Balanced(states[n], i);
    forall d | d in states[n].channel
      ensures exists j :: 0 <= j < |states[n].rows| && states[n].rows[j].data == d
    {
      var k :| 0 <= k < |states[n].channel| && states[n].channel[k] == d;
      assert IsRow(states[n].rows, states[n].channel[k]);
    }
  }

  lemma EmptyInv()
    ensures Inv(EMPTY)
  {
  }

  lemma {:induction false} RunKeepsInv(states: seq<Sys>, steps: seq<Step>, n: nat)
    requires Run(states, steps) && Inv(states[0]) && n < |states|
    ensures Inv(states[n])
  {
    hide Inv, Enabled, Next;
    if n > 0 {
      RunKeepsInv(states, steps, n - 1);
      StepKeepsInv(states[n - 1], steps[n - 1]);
    }
  }

  lemma StepKeepsPublished(s: Sys, step: Step, i: nat)
    requires Inv(s) && Enabled(s, step) && i < |s.rows| && s.rows[i].published
    ensures i < |Next(s, step).rows| && Next(s, step).rows[i] == s.rows[i]
    ensures multiset(Next(s, step).channel)[s.rows[i].data] == multiset(s.channel)[s.rows[i].data]
  {
    if step.Publish? {
      assert s.relays[step.relay].row != i;
      assert s.rows[s.relays[step.relay].row].data != s.rows[i].data;
    }
  }

  /** A marked event is never sent again. */
  lemma {:induction false} MarkedIsFinal(states: seq<Sys>, steps: seq<Step>, m: nat, n: nat, i: nat)
    requires Run(states, steps) && Inv(states[0]) && m <= n < |states|
    requires i < |states[m].rows| && states[m].rows[i].published
    ensures i < |states[n].rows| && states[n].rows[i] == states[m].rows[i]
    ensures multiset(states[n].channel)[states[m].rows[i].data]
              == multiset(states[m].channel)[states[m].rows[i].data] >= 1
  {
    hide Enabled, Next;
    if m < n {
      MarkedIsFinal(states, steps, m, n - 1, i);
      RunKeepsInv(states, steps, n - 1);
      StepKeepsPublished(states[n - 1], steps[n - 1], i);
    } else {
      RunKeepsInv(states, steps, m);
      assert Balanced(states[m], i);
    }
  }
}
