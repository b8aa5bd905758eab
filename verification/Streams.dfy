/** One auction's Redis stream and its consumer group.

    A position in the stream stands for the entry's identifier: XADD issues identifiers in
    increasing order, so positions and identifiers sort alike. Position 0 is also the scan
    cursor `0-0`. */
module Streams {
  import opened Domain
  import opened StreamFields
  import opened StreamId
  import opened Settlement

  /** An entry of the group's pending list: who has it and for how long it has been idle. */
  datatype Pending = Pending(owner: string, idle: nat)

  /** All the positions below `n`. */
  function Below(n: nat): (s: set<nat>)
    ensures forall i: nat :: i in s <==> i < n
  {
    if n == 0 then {} else Below(n - 1) + {n - 1}
  }

  /** The positions from `p` to `q`. */
  function Range(p: nat, q: nat): (s: seq<nat>)
    requires p <= q
    ensures |s| == q - p && forall j :: 0 <= j < |s| ==> s[j] == p + j
  {
    seq(q - p, j => p + j)
  }

  predicate Increasing(s: seq<nat>) {
    forall i, j :: 0 <= i < j < |s| ==> s[i] < s[j]
  }

  /** The entries that a read hands over parse. */
  predicate AllParse(ms: seq<Message>, positions: seq<nat>) {
    forall i :: 0 <= i < |positions| ==> positions[i] < |ms| && Parsed(ms[positions[i]]).Ok?
  }

  /** The first message that does not parse fails the whole reply. */
  method ParseAll(ms: seq<Message>, positions: seq<nat>) returns (ok: bool)
    requires forall i :: 0 <= i < |positions| ==> positions[i] < |ms|
    ensures ok <==> AllParse(ms, positions)
  {
    for k := 0 to |positions|
      invariant AllParse(ms, positions[..k])
    {
      if Parsed(ms[positions[k]]).Err? {
        return false;
      }
    }
    return true;
  }

  /** `faulty` says whether calls and their replies may be lost, `still` whether no time passes
      during a call. */
  class StreamStore {
    const faulty: bool
    const still: bool
    var stream: seq<Message>
    /** The identifier issued last, and a history of all of them. */
    var last: (nat, nat)
    ghost var ids: seq<(nat, nat)>
    /** How many messages the group has delivered. */
    var delivered: nat
    var pending: map<nat, Pending>
    /** A history: the COUNT of every XAUTOCLAIM. */
    ghost var counts: seq<nat>
    var acked: set<nat>

    /** Identifiers rise along the stream. */
    ghost predicate Issued()
      reads this`stream, this`last, this`ids
    {
      IssuedAs(stream, ids) && (ids != [] ==> ids[|ids| - 1] == last)
    }

    /** Conservation: every delivered message is pending or acknowledged, and not both. */
    ghost predicate Valid()
      reads this
    {
      && Issued()
      && delivered <= |stream|
      && pending.Keys !! acked
      && pending.Keys + acked == Below(delivered)
    }

    lemma Conserves()
      requires Valid()
      ensures pending.Keys !! acked && pending.Keys + acked == Below(delivered)
    {
    }

    constructor (faulty: bool, still: bool)
      ensures Valid() && stream == [] && delivered == 0 && pending == map[] && acked == {}
      ensures this.faulty == faulty && this.still == still && last == (0, 0)
    {
      this.faulty, this.still := faulty, still;
      last, ids := (0, 0), [];
      stream, delivered, pending, acked := [], 0, map[], {};
    }

    ghost predicate AllIdle(minIdle: nat)
      reads this
    {
      Eligible(pending, minIdle)
    }

    /** Time passes. */
    method Wait(elapsed: nat)
      requires Valid()
      modifies this`pending
      ensures Valid() && pending.Keys == old(pending).Keys
      ensures forall i :: i in pending ==>
                && pending[i].owner == old(pending)[i].owner
                && pending[i].idle == old(pending)[i].idle + elapsed
    {
      hide Issued;
      pending := map i | i in pending :: pending[i].(idle := pending[i].idle + elapsed);
    }

    lemma IssueOrder()
      requires Valid()
      ensures InIssueOrder(stream)
    {
    }

    /** XADD with `*`, when the clock reads `now`: Redis assigns an identifier after the last one. */
    method XAdd(now: nat, fields: map<string, FieldValue>) returns (ok: bool)
      requires Valid() && now <= MAX_INT64
      modifies this`stream, this`last, this`ids
      ensures Valid()
      ensures ok <==> NextId(old(last), now).Some?
      ensures !ok ==> stream == old(stream) && last == old(last)
      ensures ok ==> last == NextId(old(last), now).value
      ensures ok ==> stream == old(stream) + [Message(Format(last.0, last.1), fields)]
    {
      hide IssuedAs, Format, NextId, Below;
      var next := NextId(last, now);
      if next.None? {
        return false;
      }
      var m := Message(Format(next.value.0, next.value.1), fields);
      IssuedMore(stream, ids, m, next.value);
      stream, ids, last := stream + [m], ids + [next.value], next.value;
      ok := true;
    }

    /** Appends a well-formed bid. Redis gives it an identifier after all those before it. */
    method AppendBid(now: nat, bid: BidIngress) returns (ok: bool)
      requires Valid() && now <= MAX_INT64
      modifies this`stream, this`last, this`ids
      ensures Valid()
      ensures IngressFields(bid).Err? ==> !ok && stream == old(stream) && last == old(last)
      ensures ok ==> stream != old(stream)
      ensures stream != old(stream) ==>
                && IngressFields(bid).Ok?
                && NextId(old(last), now) == Some(last)
                && stream == old(stream) + [Message(Format(last.0, last.1), IngressFields(bid).value)]
      ensures stream == old(stream) ==> last == old(last)
      ensures IngressFields(bid).Ok? && NextId(old(last), now).Some? && !faulty ==> ok
    {
      hide NextId, IngressFields, Format;
      var fields := IngressFields(bid);
      var lost := MayFail(faulty);
      if fields.Err? || lost {
        return false;
      }
      var added := XAdd(now, fields.value);
      var unheard := MayFail(faulty);
      ok := added && !unheard;
    }

    /** Producers append whatever they append. */
    method Arrivals()
      requires Valid()
      modifies this`stream, this`last, this`ids
      ensures Valid() && old(stream) <= stream
    {
      hide Issued;
      var n: nat :| 0 <= n;
      for i := 0 to n
        invariant Valid() && old(stream) <= stream
        invariant delivered == old(delivered) && pending == old(pending) && acked == old(acked)
      {
        var now: nat :| now <= MAX_INT64;
        var fields: map<string, FieldValue> := *;
        var _ := XAdd(now, fields);
      }
    }

    /** XACK. It removes the entry whoever owns it; an entry that is no longer pending is left as
        it is. When the reply is lost the acknowledgement may have taken effect. */
    method Ack(i: nat) returns (ok: bool)
      requires Valid() && i < delivered
      modifies this`pending, this`acked
      ensures Valid()
      ensures (pending == old(pending) && acked == old(acked) && !ok)
              || (pending == old(pending) - {i} && acked == old(acked) + {i})
      ensures !faulty ==> ok
    {
      hide Issued;
      var lost := MayFail(faulty);
      var unheard := MayFail(faulty);
      if !lost {
        acked := acked + {i};
        pending := pending - {i};
      }
      ok := !lost && !unheard;
    }

    /** XREADGROUP with `>`: at most `count` messages that were never delivered, in order. They
        become pending even when the reply is lost or a message does not parse. */
    method ReadGroup(consumer: string, count: nat) returns (ok: bool, entries: seq<nat>)
      requires Valid() && count > 0
      modifies this`stream, this`last, this`ids, this`delivered, this`pending
      ensures Valid() && old(stream) <= stream
      ensures old(delivered) <= delivered <= old(delivered) + count
      ensures delivered == old(delivered) + count || delivered == |stream|
      ensures pending.Keys == old(pending).Keys + (Below(delivered) - Below(old(delivered)))
      ensures forall i :: i in pending ==>
                pending[i] == if i in old(pending) then old(pending)[i] else Pending(consumer, 0)
      ensures entries == Range(old(delivered), delivered)
      ensures ok ==> AllParse(stream, entries)
      ensures !faulty && AllParse(stream, entries) ==> ok
    {
      hide AllParse, Valid, Issued;
      Arrivals();
      entries := Deliver(consumer, count);
      var lost := MayFail(faulty);
      ok := ParseAll(stream, entries);
      ok := ok && !lost;
    }

    /** What Redis does: the next messages become pending. */
    method Deliver(consumer: string, count: nat) returns (entries: seq<nat>)
      requires Valid()
      modifies this`delivered, this`pending
      ensures Valid()
      ensures old(delivered) <= delivered <= old(delivered) + count
      ensures delivered == old(delivered) + count || delivered == |stream|
      ensures HandedOver(old(pending), pending, old(delivered), delivered, consumer)
      ensures entries == Range(old(delivered), delivered)
      ensures forall k :: 0 <= k < |entries| ==> entries[k] < |stream|
    {
      hide HandedOver, Issued;
      HandOverNone(pending, delivered, consumer);
      var first := delivered;
      entries := [];
      while |entries| < count && delivered < |stream|
        invariant Valid()
        invariant first == old(delivered)
        invariant delivered == first + |entries| <= first + count
        invariant entries == Range(first, delivered)
        invariant HandedOver(old(pending), pending, first, delivered, consumer)
        decreases |stream| - delivered
      {
        HandOverOne(old(pending), pending, first, delivered, consumer);
        pending := pending[delivered := Pending(consumer, 0)];
        entries := entries + [delivered];
        delivered := delivered + 1;
      }
    }

    /** XAUTOCLAIM: scans the pending list and takes over what the scan found idle enough. */
    method AutoClaimPending(consumer: string, minIdle: nat, start: nat, count: nat)
      returns (ok: bool, entries: seq<nat>, next: Option<nat>)
      requires Valid() && count > 0
      modifies this`pending, this`counts
      ensures counts == old(counts) + [count]
      ensures Valid() && Claimed(old(pending), pending, minIdle, start, next, entries, still)
      ensures |entries| <= count && forall i :: i in entries ==> i < delivered
      ensures forall i :: i in pending ==>
                if i in entries then pending[i] == Pending(consumer, 0)
                else pending[i].owner == old(pending)[i].owner
      ensures ok ==> AllParse(stream, entries)
      ensures !faulty && AllParse(stream, entries) ==> ok
    {
      hide Claimed, AllParse, Issued;
      counts := counts + [count];
      var elapsed: nat :| 0 <= elapsed && (still ==> elapsed == 0);
      Wait(elapsed);
      entries, next := Scan(pending, delivered, minIdle, start, count);
      ghost var waited := pending;
      pending := TakenOver(pending, entries, consumer);
      ScanClaims(old(pending), waited, minIdle, start, next, entries, consumer, still);
      var lost := MayFail(faulty);
      forall k | 0 <= k < |entries| ensures entries[k] < |stream| {
        assert entries[k] in entries;
      }
      ok := ParseAll(stream, entries);
      ok := ok && !lost;
    }
  }

  /** The positions from `p` to `q` have become pending, owned by the consumer. */
  predicate HandedOver(before: map<nat, Pending>, after: map<nat, Pending>, p: nat, q: nat, consumer: string)
  {
    && after.Keys == before.Keys + (Below(q) - Below(p))
    && forall i :: i in after ==> after[i] == if i in before then before[i] else Pending(consumer, 0)
  }

  lemma HandOverNone(pending: map<nat, Pending>, p: nat, consumer: string)
    ensures HandedOver(pending, pending, p, p, consumer)
  {
  }

  lemma HandOverOne(before: map<nat, Pending>, now: map<nat, Pending>, p: nat, q: nat, consumer: string)
    requires p <= q && HandedOver(before, now, p, q, consumer) && before.Keys <= Below(p)
    ensures HandedOver(before, now[q := Pending(consumer, 0)], p, q + 1, consumer)
  {
  }

  /** The pending entries that a scan from `start` to `next` passes over. */
  predicate InScan(pending: set<nat>, start: nat, next: Option<nat>, i: nat) {
    i in pending && start <= i && (next.Some? ==> i < next.value)
  }

  predicate Eligible(pending: map<nat, Pending>, minIdle: nat) {
    forall i :: i in pending ==> pending[i].idle >= minIdle
  }

  /** What XAUTOCLAIM hands over: in order, entries that the scan passed over, and at least those
      that had been idle long enough before the call. Nothing enters or leaves the pending list,
      and what is not taken over goes on being idle. When time stands still, it hands over just
      those entries, and the others are as idle as before. */
  ghost predicate Claimed(before: map<nat, Pending>, after: map<nat, Pending>, minIdle: nat, start: nat,
                    next: Option<nat>, entries: seq<nat>, still: bool)
  {
    && after.Keys == before.Keys
    && Increasing(entries)
    && (forall i :: i in entries ==> InScan(before.Keys, start, next, i))
    && (forall i :: (InScan(before.Keys, start, next, i) && before[i].idle >= minIdle) ==> i in entries)
    && (next.Some? ==> next.value in before && exists i :: InScan(before.Keys, start, next, i))
    && (forall i :: i in after && i !in entries ==> after[i].idle >= before[i].idle)
    && (still ==> forall i :: i in entries ==> before[i].idle >= minIdle)
    && (still ==> forall i :: i in after && i !in entries ==> after[i].idle == before[i].idle)
  }

  function TakenOver(pending: map<nat, Pending>, entries: seq<nat>, consumer: string): map<nat, Pending> {
    map i | i in pending :: if i in entries then Pending(consumer, 0) else pending[i]
  }

  lemma ScanClaims(before: map<nat, Pending>, waited: map<nat, Pending>, minIdle: nat, start: nat,
                   next: Option<nat>, entries: seq<nat>, consumer: string, still: bool)
    requires before.Keys == waited.Keys
    requires still ==> forall i :: i in waited ==> waited[i].idle == before[i].idle
    requires forall i :: i in waited ==> waited[i].idle >= before[i].idle
    requires Increasing(entries)
    requires forall i :: i in entries <==>
               InScan(waited.Keys, start, next, i) && waited[i].idle >= minIdle
    requires next.Some? ==> next.value in waited && exists i :: InScan(waited.Keys, start, next, i)
    ensures Claimed(before, TakenOver(waited, entries, consumer), minIdle, start, next, entries, still)
  {
  }

  /** The scan goes over at most ten times `count` pending entries from `start` on, in order, and
      picks at most `count` that have been idle for `minIdle`. `next` is the pending entry where it
      stopped, or `None` (Redis says `0-0`) when it reached the end. */
  method Scan(pending: map<nat, Pending>, bound: nat, minIdle: nat, start: nat, count: nat)
    returns (entries: seq<nat>, next: Option<nat>)
    requires count > 0 && forall i :: i in pending ==> i < bound
    ensures Increasing(entries) && |entries| <= count
    ensures forall i :: i in entries <==>
              InScan(pending.Keys, start, next, i) && pending[i].idle >= minIdle
    ensures next.Some? ==> next.value in pending
                           && exists i :: InScan(pending.Keys, start, next, i)
  {
    entries, next := [], None;
    var i, examined := start, 0;
    ghost var last := start;
    while i < bound
      invariant Increasing(entries) && |entries| <= count && |entries| <= examined
      invariant forall k :: k in entries <==>
                  k in pending && start <= k < i && pending[k].idle >= minIdle
      invariant examined > 0 ==> last in pending && start <= last < i
      decreases bound - i
    {
      if i in pending {
        if |entries| == count || examined == 10 * count {
          next := Some(i);
          assert InScan(pending.Keys, start, next, last);
          return;
        }
        examined, last := examined + 1, i;
        assert forall m :: 0 <= m < |entries| ==> entries[m] in entries;
        if pending[i].idle >= minIdle {
          entries := entries + [i];
        }
      }
      i := i + 1;
    }
  }
}
