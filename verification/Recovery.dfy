/** What one page of the recovery loop, and the whole loop, does to the pending list. */
module Recovery {
  import opened Domain
  import opened Streams
  import opened Positions

  /** A page was claimed and processed: what the scan passed over and found eligible is
      acknowledged, everything else is as idle as before, and the cursor has moved. When time stands
      still, only what was eligible is gone. */
  predicate PageDone(before: map<nat, Pending>, after: map<nat, Pending>, acked: set<nat>,
                     minIdle: nat, start: nat, next: Option<nat>, still: bool)
  {
    && (forall i :: i in before && InScan(before.Keys, start, next, i) && before[i].idle >= minIdle
                    ==> i in acked)
    && Waited(before, after, minIdle, still)
    && (next.Some? ==> next.value in before && start < next.value)
  }

  /** What is left is as idle as it was or has waited longer. When time stands still it has not, and
      what is gone was eligible. */
  predicate Waited(before: map<nat, Pending>, after: map<nat, Pending>, minIdle: nat, still: bool) {
    && (forall i :: i in after ==> i in before && after[i].idle >= before[i].idle)
    && (still ==> forall i :: i in after ==> i in before && after[i].idle == before[i].idle)
    && (still ==> forall i :: i in before && i !in after ==> before[i].idle >= minIdle)
  }

  lemma FreshCount(acked: set<nat>, delivered: nat, delivered': nat)
    requires delivered <= delivered' && acked <= Below(delivered)
    ensures |acked + Elements(Range(delivered, delivered'))| == |acked| + delivered' - delivered
  {
    IncreasingCount(Range(delivered, delivered'));
    assert Elements(Range(delivered, delivered')) !! acked;
  }

  /** Claims in stream order out of what a scan passed over; when time stands still, just of what was
      idle enough. */
  predicate PageOf(before: map<nat, Pending>, claims: seq<nat>, minIdle: nat, start: nat,
                   next: Option<nat>, still: bool)
  {
    && Increasing(claims)
    && (forall i :: i in claims ==> InScan(before.Keys, start, next, i))
    && (still ==> forall i :: i in claims ==> i in before && before[i].idle >= minIdle)
  }

  lemma ClaimKeeps(before: map<nat, Pending>, after: map<nat, Pending>, minIdle: nat, start: nat,
                   next: Option<nat>, entries: seq<nat>, still: bool)
    requires Claimed(before, after, minIdle, start, next, entries, still)
    ensures after.Keys == before.Keys && PageOf(before, entries, minIdle, start, next, still)
  {
  }

  lemma PageIsDone(before: map<nat, Pending>, claimed: map<nat, Pending>, after: map<nat, Pending>,
                   acked: set<nat>, minIdle: nat, start: nat, next: Option<nat>, entries: seq<nat>,
                   still: bool)
    requires Claimed(before, claimed, minIdle, start, next, entries, still)
    requires after == claimed - Elements(entries) && before.Keys !! acked
    ensures PageDone(before, after, acked + Elements(entries), minIdle, start, next, still)
    ensures |acked + Elements(entries)| == |acked| + |entries|
  {
    IncreasingCount(entries);
    assert Elements(entries) !! acked;
    if next.Some? {
      var i :| InScan(before.Keys, start, next, i);
    }
  }

  /** Acknowledging part of a claimed page. */
  lemma PageKeys(before: map<nat, Pending>, claimed: map<nat, Pending>, acked: set<nat>, some: set<nat>)
    requires claimed.Keys == before.Keys
    ensures (claimed - some).Keys <= before.Keys <= (claimed - some).Keys + (acked + some)
    ensures acked <= acked + some
  {
  }

  /** Everything before `start`, or everything at all once there is no `more`, that was eligible
      when recovery began is acknowledged; what is left is as idle as it was. */
  predicate Recovered(before: map<nat, Pending>, now: map<nat, Pending>, acked: set<nat>,
                      minIdle: nat, start: nat, more: bool, still: bool)
  {
    && (forall i :: (i in before && before[i].idle >= minIdle && (!more || i < start)) ==> i in acked)
    && Waited(before, now, minIdle, still)
  }

  lemma RecoveryEnds(before: map<nat, Pending>, now: map<nat, Pending>, acked: set<nat>,
                     minIdle: nat, start: nat, still: bool)
    requires Recovered(before, now, acked, minIdle, start, false, still) && now.Keys !! acked
    ensures forall i :: (i in before && before[i].idle >= minIdle) ==> i in acked
    ensures now.Keys <= before.Keys
    ensures still ==> forall i :: i in before ==> (i in now <==> before[i].idle < minIdle)
  {
  }

  lemma StillEligible(before: map<nat, Pending>, now: map<nat, Pending>, acked: set<nat>,
                      minIdle: nat, start: nat, more: bool, still: bool)
    requires Recovered(before, now, acked, minIdle, start, more, still) && Eligible(before, minIdle)
    ensures Eligible(now, minIdle)
  {
  }

  lemma PageRecovers(before: map<nat, Pending>, now: map<nat, Pending>, acked: set<nat>,
                     now': map<nat, Pending>, acked': set<nat>, minIdle: nat, start: nat,
                     next: Option<nat>, still: bool)
    requires Recovered(before, now, acked, minIdle, start, true, still)
    requires PageDone(now, now', acked', minIdle, start, next, still)
    requires before.Keys <= now.Keys + acked && acked <= acked'
    ensures Recovered(before, now', acked', minIdle,
                      if next.Some? then next.value else start, next.Some?, still)
    ensures next.Some? ==> next.value in now && start < next.value
  {
    forall i | i in before && before[i].idle >= minIdle && (next.None? || i < next.value)
      ensures i in acked'
    {
      if i in now && start <= i {
        assert InScan(now.Keys, start, next, i);
      }
    }
  }

  /** What recovery may claim; when time stands still, only what is idle enough at the start. */
  function Claimable(pending: map<nat, Pending>, minIdle: nat, still: bool): set<nat> {
    set i | i in pending && (still ==> pending[i].idle >= minIdle)
  }

  /** Recovery so far: it has acknowledged what it claimed, in stream order and before `start`. */
  predicate Progressed(before: map<nat, Pending>, already: set<nat>, now: map<nat, Pending>,
                       acked: set<nat>, claimed: seq<nat>, minIdle: nat, start: nat, more: bool,
                       still: bool)
  {
    && Recovered(before, now, acked, minIdle, start, more, still)
    && now.Keys <= before.Keys <= now.Keys + acked
    && Increasing(claimed)
    && Elements(claimed) <= Claimable(before, minIdle, still)
    && (more ==> forall x :: x in claimed ==> x < start)
    && acked == already + Elements(claimed)
  }

  lemma ProgressStarts(before: map<nat, Pending>, already: set<nat>, minIdle: nat, still: bool)
    ensures Progressed(before, already, before, already, [], minIdle, 0, true, still)
  {
  }

  lemma PageInStart(before: map<nat, Pending>, now: map<nat, Pending>, acked: set<nat>,
                    claims: seq<nat>, minIdle: nat, start: nat, next: Option<nat>, still: bool)
    requires Recovered(before, now, acked, minIdle, start, true, still)
    requires PageOf(now, claims, minIdle, start, next, still)
    ensures Elements(claims) <= Claimable(before, minIdle, still) <= before.Keys
    ensures forall x :: x in claims ==> start <= x && (next.Some? ==> x < next.value)
  {
  }

  /** The claims of a page, as far as they were settled, continue those of the pages before. */
  lemma ProgressStops(before: map<nat, Pending>, already: set<nat>, now: map<nat, Pending>,
                      acked: set<nat>, claimed: seq<nat>, claims: seq<nat>, settled: nat,
                      minIdle: nat, start: nat, next: Option<nat>, still: bool)
    requires Progressed(before, already, now, acked, claimed, minIdle, start, true, still)
    requires PageOf(now, claims, minIdle, start, next, still) && settled <= |claims|
    ensures Elements(claims) <= Claimable(before, minIdle, still)
    ensures Increasing(claimed + claims[..settled]) && now.Keys <= before.Keys
    ensures Elements(claimed + claims[..settled]) <= Claimable(before, minIdle, still)
  {
    hide Recovered, Claimable;
    PageInStart(before, now, acked, claims, minIdle, start, next, still);
    assert forall x :: x in claims[..settled] ==> x in claims;
    IncreasingConcat(claimed, claims[..settled], start);
  }

  lemma ProgressPage(before: map<nat, Pending>, already: set<nat>, now: map<nat, Pending>,
                     acked: set<nat>, now': map<nat, Pending>, claimed: seq<nat>, claims: seq<nat>,
                     minIdle: nat, start: nat, next: Option<nat>, still: bool)
    requires Progressed(before, already, now, acked, claimed, minIdle, start, true, still)
    requires PageOf(now, claims, minIdle, start, next, still)
    requires PageDone(now, now', acked + Elements(claims), minIdle, start, next, still)
    requires now.Keys <= now'.Keys + acked + Elements(claims)
    ensures Progressed(before, already, now', acked + Elements(claims), claimed + claims, minIdle,
                       if next.Some? then next.value else start, next.Some?, still)
    ensures next.Some? ==> next.value in before && start < next.value
  {
    hide Recovered, Claimable;
    PageInStart(before, now, acked, claims, minIdle, start, next, still);
    PageRecovers(before, now, acked, now', acked + Elements(claims), minIdle, start, next, still);
    IncreasingConcat(claimed, claims, start);
  }

  lemma ProgressEnds(before: map<nat, Pending>, already: set<nat>, now: map<nat, Pending>,
                     acked: set<nat>, claimed: seq<nat>, minIdle: nat, start: nat, still: bool)
    requires Progressed(before, already, now, acked, claimed, minIdle, start, false, still)
    requires now.Keys !! acked
    ensures Increasing(claimed) && now.Keys <= before.Keys
    ensures Elements(claimed) <= Claimable(before, minIdle, still)
    ensures acked == already + Elements(claimed)
    ensures AllRecovered(before, now, acked, minIdle, still)
  {
    hide Recovered;
    RecoveryEnds(before, now, acked, minIdle, start, still);
  }

  /** Every entry that was idle long enough is acknowledged; when time stands still, no other one. */
  predicate AllRecovered(before: map<nat, Pending>, now: map<nat, Pending>, acked: set<nat>,
                         minIdle: nat, still: bool)
  {
    && (forall i :: (i in before && before[i].idle >= minIdle) ==> i in acked)
    && (still ==> forall i :: i in before ==> (i in now <==> before[i].idle < minIdle))
  }

  lemma ProgressEligible(before: map<nat, Pending>, already: set<nat>, now: map<nat, Pending>,
                         acked: set<nat>, claimed: seq<nat>, minIdle: nat, start: nat, more: bool,
                         still: bool)
    requires Progressed(before, already, now, acked, claimed, minIdle, start, more, still)
    requires Eligible(before, minIdle)
    ensures Eligible(now, minIdle)
  {
    hide Recovered;
    StillEligible(before, now, acked, minIdle, start, more, still);
  }

  /** When the first `p` messages are acknowledged and all others delivered are pending and
      eligible, a scan that starts no later than `p` claims the messages from `p` to its stop. */
  lemma ClaimedRange(pending: set<nat>, acked: set<nat>, delivered: nat, p: nat, start: nat,
                     next: Option<nat>, entries: seq<nat>)
    requires p <= delivered && acked == Below(p) && start <= p
    requires pending !! acked && pending + acked == Below(delivered)
    requires Increasing(entries)
    requires forall i :: i in entries <==> InScan(pending, start, next, i)
    requires next.Some? ==> next.value in pending
    ensures var stop := if next.Some? then next.value else delivered;
            p <= stop <= delivered && entries == Range(p, stop)
  {
    var stop := if next.Some? then next.value else delivered;
    forall i: nat ensures i in pending <==> p <= i < delivered {
    }
    IncreasingIsRange(entries, p, stop);
  }

  lemma PageRange(before: map<nat, Pending>, after: map<nat, Pending>, acked: set<nat>, delivered: nat,
                  p: nat, minIdle: nat, start: nat, next: Option<nat>, entries: seq<nat>, still: bool)
    requires Claimed(before, after, minIdle, start, next, entries, still) && Eligible(before, minIdle)
    requires p <= delivered && acked == Below(p) && start <= p
    requires before.Keys !! acked && before.Keys + acked == Below(delivered)
    ensures var stop := if next.Some? then next.value else delivered;
            p <= stop <= delivered && entries == Range(p, stop)
  {
    ClaimedRange(before.Keys, acked, delivered, p, start, next, entries);
  }

  ghost predicate IsPrefix(acked: set<nat>) {
    exists q: nat :: acked == Below(q)
  }

  /** Recovery took just what was eligible, and then fresh messages were acknowledged: what is
      acknowledged is a prefix of the stream exactly when everything was eligible. */
  lemma PrefixExactly(before: map<nat, Pending>, after: map<nat, Pending>, acked: set<nat>,
                      delivered: nat, delivered': nat, minIdle: nat)
    requires delivered < delivered' && before.Keys <= Below(delivered) && after.Keys <= before.Keys
    requires after.Keys !! acked && after.Keys + acked == Below(delivered')
    requires forall i :: i in before ==> (i in after <==> before[i].idle < minIdle)
    ensures IsPrefix(acked) <==> Eligible(before, minIdle)
  {
    if Eligible(before, minIdle) {
      assert after.Keys == {};
      assert acked == Below(delivered');
    }
    if q: nat :| acked == Below(q) {
      assert delivered' - 1 in after.Keys + acked;
      assert delivered' - 1 in acked;
      forall i | i in before ensures i !in after {
        assert i in acked;
      }
    }
  }
}
