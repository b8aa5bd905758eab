/** `PublishNext` and the relay's batch loop as written, one relay working alone. */
module Relay {
  import opened Domain
  import opened Ledger
  import opened Outbox

  /** Where a call fails, if it does. A failing commit may still have taken effect. */
  datatype Fault = NoFault | BeforeSend | AfterSend | CommitLost | CommitUnheard

  predicate Pending(rows: seq<Row>, i: nat) {
    i < |rows| && !rows[i].published
  }

  ghost predicate FirstPending(rows: seq<Row>, i: nat) {
    Pending(rows, i)
    && forall j: nat :: Pending(rows, j) && j != i ==> Before(rows[i].data, rows[j].data)
  }

  /** `d` is the first pending event; the rows stay as they are, or it is marked. */
  ghost predicate Sends(rows: seq<Row>, rows': seq<Row>, d: OutboxRow) {
    exists i: nat :: FirstPending(rows, i) && rows[i].data == d && rows' == rows
  }

  ghost predicate SendsAndMarks(rows: seq<Row>, rows': seq<Row>, d: OutboxRow) {
    exists i: nat :: FirstPending(rows, i) && rows[i].data == d && rows' == Marked(rows, i)
  }

  function Marked(rows: seq<Row>, i: nat): seq<Row>
    requires i < |rows|
  {
    rows[i := rows[i].(published := true, attempts := rows[i].attempts + 1)]
  }

  /** How many rows wait to be published. */
  function Backlog(rows: seq<Row>): nat {
    if rows == [] then 0
    else Backlog(rows[..|rows| - 1]) + if rows[|rows| - 1].published then 0 else 1
  }

  lemma {:induction false} BacklogDrops(rows: seq<Row>, i: nat)
    requires Pending(rows, i)
    ensures Backlog(Marked(rows, i)) == Backlog(rows) - 1
  {
    var n := |rows| - 1;
    if i < n {
      BacklogDrops(rows[..n], i);
      assert Marked(rows, i)[..n] == Marked(rows[..n], i);
    } else {
      assert Marked(rows, i)[..n] == rows[..n];
    }
  }

  /** The committed outbox table and the channel. */
  class OutboxStore {
    var rows: seq<Row>
    var channel: seq<OutboxRow>

    ghost predicate Valid()
      reads this
    {
      DistinctRows(rows)
    }

    constructor (rows: seq<Row>)
      requires DistinctRows(rows)
      ensures Valid() && this.rows == rows && channel == []
    {
      this.rows, channel := rows, [];
    }

    /** `SELECT ... WHERE published_at IS NULL ORDER BY created_at, id ... LIMIT 1`. */
    method SelectFirst() returns (first: Option<nat>)
      requires Valid()
      ensures first.Some? ==> FirstPending(rows, first.value) && OldestOf(rows, rows[first.value].data)
      ensures first.None? ==> forall i :: 0 <= i < |rows| ==> rows[i].published
    {
      first := None;
      for i := 0 to |rows|
        invariant first.None? ==> forall j :: 0 <= j < i ==> rows[j].published
        invariant first.Some? ==>
                    && first.value < i && !rows[first.value].published
                    && forall j :: 0 <= j < i && !rows[j].published && j != first.value ==>
                         Before(rows[first.value].data, rows[j].data)
      {
        if !rows[i].published && (first.None? || Before(rows[i].data, rows[first.value].data)) {
          first := Some(i);
        }
      }
    }

    /** Sends the first pending event and marks it. Whatever fails, an event that is marked has been
        sent by this call, and nothing else has changed. */
    method PublishNext(fault: Fault) returns (published: bool, ok: bool)
      requires Valid()
      modifies this
      ensures Valid()
      ensures ok && !published ==> rows == old(rows) && channel == old(channel)
                                   && forall i :: 0 <= i < |rows| ==> rows[i].published
      ensures ok && published ==>
                exists d :: channel == old(channel) + [d] && SendsAndMarks(old(rows), rows, d)
      ensures !ok ==>
                || (rows == old(rows) && channel == old(channel))
                || exists d :: channel == old(channel) + [d]
                               && (Sends(old(rows), rows, d) || SendsAndMarks(old(rows), rows, d))
      ensures fault.NoFault? ==> ok
      ensures old(channel) <= channel && |channel| <= |old(channel)| + 1
      ensures |channel| == |old(channel)| + 1 ==> OldestOf(old(rows), channel[|old(channel)|])
    {
      var first := SelectFirst();
      if first.None? {
        return false, true;
      }
      var i := first.value;
      if fault.BeforeSend? {
        return false, false;
      }
      channel := channel + [rows[i].data];
      if fault.AfterSend? || fault.CommitLost? {
        // The transaction is rolled back; what was sent stays sent.
        return false, false;
      }
      rows := Marked(rows, i);
      if fault.CommitUnheard? {
        return false, false;
      }
      return true, true;
    }
  }

  /** An unpublished row's event, and no other unpublished row was created before it, or at the same
      time with a smaller identifier. */
  ghost predicate OldestOf(rows: seq<Row>, d: OutboxRow) {
    && (exists i :: 0 <= i < |rows| && !rows[i].published && rows[i].data == d)
    && forall j :: 0 <= j < |rows| && !rows[j].published ==>
         var e := rows[j].data;
         && d.stamp.createdAt <= e.stamp.createdAt
         && (d.stamp.createdAt == e.stamp.createdAt ==> d.stamp.id <= e.stamp.id)
  }

  lemma SendsOldest(rows: seq<Row>, rows': seq<Row>, d: OutboxRow)
    requires Sends(rows, rows', d) || SendsAndMarks(rows, rows', d)
    ensures OldestOf(rows, d)
  {
    var i: nat :| FirstPending(rows, i) && rows[i].data == d;
    forall j | 0 <= j < |rows| && !rows[j].published
      ensures var e := rows[j].data;
              && d.stamp.createdAt <= e.stamp.createdAt
              && (d.stamp.createdAt == e.stamp.createdAt ==> d.stamp.id <= e.stamp.id)
    {
      assert Pending(rows, j);
    }
  }

  /** A call that succeeds is four steps of the many-relay machine, taken with no other relay. */
  lemma CallIsFourSteps(s: Sys, rows': seq<Row>, d: OutboxRow, r: nat)
    returns (states: seq<Sys>, steps: seq<Step>)
    requires s.relays == map[] && SendsAndMarks(s.rows, rows', d)
    ensures Outbox.Run(states, steps) && states[0] == s
    ensures states[|states| - 1] == s.(rows := rows', channel := s.channel + [d])
  {
    var i: nat :| FirstPending(s.rows, i) && s.rows[i].data == d && rows' == Marked(s.rows, i);
    OnlyRelaySelects(s, i);
    var s1 := Next(s, Select(r, i));
    var s2 := Next(s1, Publish(r));
    var s3 := Next(s2, Mark(r));
    var s4 := Next(s3, Commit(r));
    steps := [Select(r, i), Publish(r), Mark(r), Commit(r)];
    states := [s, s1, s2, s3, s4];
  }

  lemma OnlyRelaySelects(s: Sys, i: nat)
    requires s.relays == map[] && FirstPending(s.rows, i)
    ensures FirstAvailable(s, i)
  {
    forall j: nat | Available(s, j) && j != i ensures Before(s.rows[i].data, s.rows[j].data) {
      assert Pending(s.rows, j);
    }
  }

  // ---- Draining ----

  predicate Sorted(q: seq<OutboxRow>) {
    forall i, j :: 0 <= i < j < |q| ==> Before(q[i], q[j])
  }

  function PendingData(rows: seq<Row>): seq<OutboxRow> {
    if rows == [] then []
    else
      var r := rows[|rows| - 1];
      PendingData(rows[..|rows| - 1]) + if r.published then [] else [r.data]
  }

  lemma PendingDataSplit(rows: seq<Row>, r: Row)
    ensures PendingData(rows + [r]) == PendingData(rows) + if r.published then [] else [r.data]
  {
    assert (rows + [r])[..|rows|] == rows;
  }

  lemma {:induction false} MarkRemoves(rows: seq<Row>, i: nat)
    requires Pending(rows, i)
    ensures multiset(PendingData(rows))
              == multiset(PendingData(Marked(rows, i))) + multiset{rows[i].data}
  {
    hide PendingData;
    var n := |rows| - 1;
    assert rows == rows[..n] + [rows[n]];
    PendingDataSplit(rows[..n], rows[n]);
    if i < n {
      MarkRemoves(rows[..n], i);
      assert Marked(rows, i) == Marked(rows[..n], i) + [rows[n]];
      PendingDataSplit(Marked(rows[..n], i), rows[n]);
    } else {
      assert Marked(rows, i) == rows[..n] + [Marked(rows, i)[n]];
      PendingDataSplit(rows[..n], Marked(rows, i)[n]);
    }
  }

  /** What has been sent is sorted, is before everything pending, and together with it is what was
      pending at first. */
  ghost predicate Draining(rows0: seq<Row>, rows: seq<Row>, sent: seq<OutboxRow>) {
    && Sorted(sent)
    && (forall k, j: nat :: 0 <= k < |sent| && Pending(rows, j) ==> Before(sent[k], rows[j].data))
    && multiset(sent) + multiset(PendingData(rows)) == multiset(PendingData(rows0))
  }

  lemma DrainStep(rows0: seq<Row>, rows: seq<Row>, rows': seq<Row>, sent: seq<OutboxRow>, d: OutboxRow)
    requires Draining(rows0, rows, sent) && SendsAndMarks(rows, rows', d)
    ensures Draining(rows0, rows', sent + [d])
    ensures Backlog(rows') == Backlog(rows) - 1
  {
    hide PendingData, Backlog, Before;
    var i: nat :| FirstPending(rows, i) && rows[i].data == d && rows' == Marked(rows, i);
    BacklogDrops(rows, i);
    MarkRemoves(rows, i);
    assert multiset(sent + [d]) == multiset(sent) + multiset{d};
    assert forall j: nat :: Pending(rows', j) ==> Pending(rows, j) && j != i && rows'[j] == rows[j];
  }

  lemma {:induction false} NothingPending(rows: seq<Row>)
    requires forall i :: 0 <= i < |rows| ==> rows[i].published
    ensures PendingData(rows) == []
  {
    if rows != [] {
      assert forall i :: 0 <= i < |rows| - 1 ==> rows[..|rows| - 1][i] == rows[i];
      NothingPending(rows[..|rows| - 1]);
    }
  }

  lemma DrainStarts(rows: seq<Row>)
    ensures Draining(rows, rows, [])
  {
    hide PendingData;
  }

  lemma DrainEnds(rows0: seq<Row>, rows: seq<Row>, sent: seq<OutboxRow>)
    requires Draining(rows0, rows, sent) && forall i :: 0 <= i < |rows| ==> rows[i].published
    ensures Sorted(sent) && multiset(sent) == multiset(PendingData(rows0))
  {
    NothingPending(rows);
  }

  class OutboxRelay {
    const outbox: OutboxStore
    const batchSize: nat

    constructor (outbox: OutboxStore, batchSize: int)
      ensures this.outbox == outbox
      ensures this.batchSize == (if batchSize <= 0 then 100 else batchSize) > 0
    {
      this.outbox := outbox;
      this.batchSize := if batchSize <= 0 then 100 else batchSize;
    }

    /** The loop up to its first idle poll, with no failure and no new event: it gets there for
        every positive batch size, and what it sends is the pending events, each once, sorted by
        creation time and identifier. */
    method Run()
      requires outbox.Valid() && batchSize > 0
      modifies outbox
      ensures outbox.Valid()
      ensures forall i :: 0 <= i < |outbox.rows| ==> outbox.rows[i].published
      ensures old(outbox.channel) <= outbox.channel
      ensures var sent := outbox.channel[|old(outbox.channel)|..];
              Sorted(sent) && multiset(sent) == multiset(PendingData(old(outbox.rows)))
      ensures forall i, j :: |old(outbox.channel)| <= i < j < |outbox.channel| ==>
                var d, e := outbox.channel[i].stamp, outbox.channel[j].stamp;
                d.createdAt <= e.createdAt && (d.createdAt == e.createdAt ==> d.id < e.id)
    {
      hide Draining, SendsAndMarks, Sends, Backlog, PendingData, DistinctRows;
      ghost var rows0, start := outbox.rows, |outbox.channel|;
      DrainStarts(rows0);
      assert outbox.channel[start..] == [];
      var idle := false;
      while !idle
        invariant outbox.Valid()
        invariant old(outbox.channel) <= outbox.channel
        invariant Draining(rows0, outbox.rows, outbox.channel[start..])
        invariant idle ==> forall i :: 0 <= i < |outbox.rows| ==> outbox.rows[i].published
        decreases Backlog(outbox.rows), !idle
      {
        var processed := 0;
        var drained := false;
        ghost var backlog := Backlog(outbox.rows);
        while processed < batchSize && !drained
          invariant 0 <= processed <= batchSize
          invariant outbox.Valid()
          invariant old(outbox.channel) <= outbox.channel
          invariant Draining(rows0, outbox.rows, outbox.channel[start..])
          invariant Backlog(outbox.rows) + processed == backlog
          invariant drained ==> forall i :: 0 <= i < |outbox.rows| ==> outbox.rows[i].published
          decreases batchSize - processed, !drained
        {
          ghost var rows, channel := outbox.rows, outbox.channel;
          var published, _ := outbox.PublishNext(NoFault);
          if published {
            ghost var d :| outbox.channel == channel + [d] && SendsAndMarks(rows, outbox.rows, d);
            assert outbox.channel[start..] == channel[start..] + [d];
            DrainStep(rows0, rows, outbox.rows, channel[start..], d);
            processed := processed + 1;
          } else {
            drained := true;
          }
        }
        idle := processed == 0;
      }
      DrainEnds(rows0, outbox.rows, outbox.channel[start..]);
    }
  }
}
