/** Redis stream identifiers: `<milliseconds>-<sequence>`. */
module StreamId {
  import opened Domain
  import opened Decimal

  /** The place of the first dash, or the length. */
  function FirstDash(s: string): (i: nat)
    ensures i <= |s|
    ensures i < |s| ==> s[i] == '-'
    ensures forall j :: 0 <= j < i ==> s[j] != '-'
  {
    if s == "" then 0 else if s[0] == '-' then 0 else FirstDash(s[1..]) + 1
  }

  datatype IdError = Malformed | BadTimestamp | NegativeTimestamp | BadSequence

  /** The ingress time that an identifier carries. The text is cut at its first dash. */
  function StreamEntryTime(id: string): Result<Time, IdError> {
    var i := FirstDash(id);
    if i == |id| || i == 0 || id[i + 1..] == "" then Err(Malformed)
    else
      var milliseconds := ParseInt(id[..i]);
      if milliseconds.None? then Err(BadTimestamp)
      else if milliseconds.value < 0 then Err(NegativeTimestamp)
      else if ParseUint(id[i + 1..]).None? then Err(BadSequence)
      else Ok(milliseconds.value)
  }

  function Format(ms: nat, seqNo: nat): string {
    Print(ms) + "-" + Print(seqNo)
  }

  lemma CutAtDash(p: string, q: string)
    requires forall j :: 0 <= j < |p| ==> p[j] != '-'
    ensures var id := p + "-" + q;
            FirstDash(id) == |p| && id[..|p|] == p && id[|p| + 1..] == q
  {
    var id := p + "-" + q;
    assert id[|p|] == '-';
    assert FirstDash(id) <= |p|;
    assert forall j :: 0 <= j < |p| ==> id[j] == p[j];
  }

  /** Which texts give a time, and which time: digits, one dash, digits, in range; the
      milliseconds may carry a plus sign. Leading zeros are allowed. */
  ghost predicate Denotes(id: string, p: string, q: string, ms: Time) {
    && IsNumber(p) && IsNumber(q)
    && (id == p + "-" + q || id == "+" + p + "-" + q)
    && Value(p) == ms && ms <= MAX_INT64 && Value(q) <= MAX_UINT64
  }

  lemma DenotedTime(id: string, p: string, q: string, ms: Time)
    requires Denotes(id, p, q, ms)
    ensures StreamEntryTime(id) == Ok(ms)
  {
    forall j | 0 <= j < |p| ensures p[j] != '-' {
      assert IsDigit(p[j]);
    }
    if id == p + "-" + q {
      CutAtDash(p, q);
      assert IsDigit(p[0]);
    } else {
      CutAtDash("+" + p, q);
      SignedParses(p);
      assert IsDigit(p[0]);
    }
  }

  /** The exact language of accepted identifiers. */
  lemma StreamEntryTimeExact(id: string, ms: Time)
    ensures StreamEntryTime(id) == Ok(ms) <==> exists p, q :: Denotes(id, p, q, ms)
  {
    if StreamEntryTime(id) == Ok(ms) {
      var i := FirstDash(id);
      var q := id[i + 1..];
      assert id == id[..i] + "-" + q;
      if id[0] == '+' {
        assert id == "+" + id[1..i] + "-" + q;
        assert id[..i][1..] == id[1..i];
        assert Denotes(id, id[1..i], q, ms);
      } else {
        assert id[..i][0] != '-';
        assert Denotes(id, id[..i], q, ms);
      }
    }
    forall p, q | Denotes(id, p, q, ms) ensures StreamEntryTime(id) == Ok(ms) {
      DenotedTime(id, p, q, ms);
    }
  }

  /** The branch for negative milliseconds is dead: a leading minus sign is itself the dash at
      which the text is cut. */
  lemma NeverNegative(id: string)
    ensures StreamEntryTime(id) != Err(NegativeTimestamp)
  {
    var i := FirstDash(id);
    if 0 < i < |id| {
      assert id[..i][0] == id[0] != '-';
    }
  }

  /** Every identifier that Redis issues gives back its milliseconds. */
  lemma FormatRoundTrip(ms: nat, seqNo: nat)
    requires ms <= MAX_INT64 && seqNo <= MAX_UINT64
    ensures StreamEntryTime(Format(ms, seqNo)) == Ok(ms)
  {
    PrintValue(ms);
    PrintValue(seqNo);
    DenotedTime(Format(ms, seqNo), Print(ms), Print(seqNo), ms);
  }

  predicate IdBefore(ms: nat, seqNo: nat, ms': nat, seqNo': nat) {
    ms < ms' || (ms == ms' && seqNo < seqNo')
  }

  /** Identifiers issued later never carry an earlier time, and their texts differ. */
  lemma TimesFollowIds(ms: nat, seqNo: nat, ms': nat, seqNo': nat)
    requires ms <= MAX_INT64 && ms' <= MAX_INT64 && seqNo <= MAX_UINT64 && seqNo' <= MAX_UINT64
    requires IdBefore(ms, seqNo, ms', seqNo')
    ensures var t, t' := StreamEntryTime(Format(ms, seqNo)), StreamEntryTime(Format(ms', seqNo'));
            t.Ok? && t'.Ok? && t.value <= t'.value
    ensures Format(ms, seqNo) != Format(ms', seqNo')
  {
    FormatRoundTrip(ms, seqNo);
    FormatRoundTrip(ms', seqNo');
    forall j | 0 <= j < |Print(ms)| ensures Print(ms)[j] != '-' {
      assert IsDigit(Print(ms)[j]);
    }
    forall j | 0 <= j < |Print(ms')| ensures Print(ms')[j] != '-' {
      assert IsDigit(Print(ms')[j]);
    }
    CutAtDash(Print(ms), Print(seqNo));
    CutAtDash(Print(ms'), Print(seqNo'));
    PrintValue(ms);
    PrintValue(seqNo);
    PrintValue(ms');
    PrintValue(seqNo');
  }
}
