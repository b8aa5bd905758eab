/** Decimal text: what `strconv` prints and reads. */
module Decimal {
  import opened Domain

  predicate IsDigit(c: char) {
    '0' <= c <= '9'
  }

  predicate IsNumber(s: string) {
    s != "" && forall i :: 0 <= i < |s| ==> IsDigit(s[i])
  }

  function Value(s: string): (n: nat)
    requires forall i :: 0 <= i < |s| ==> IsDigit(s[i])
  {
    if s == "" then 0
    else
      assert IsDigit(s[|s| - 1]);
      Value(s[..|s| - 1]) * 10 + (s[|s| - 1] as int - '0' as int)
  }

  function Print(n: nat): (s: string)
    ensures IsNumber(s)
  {
    if n < 10 then [n as char + '0'] else Print(n / 10) + [(n % 10) as char + '0']
  }

  /** `strconv.ParseUint(s, 10, 64)`: digits only, without a sign. */
  function ParseUint(s: string): (r: Option<nat>) {
    if IsNumber(s) && Value(s) <= MAX_UINT64 then Some(Value(s)) else None
  }

  /** `strconv.ParseInt(s, 10, 64)`: one optional sign, then digits. */
  function ParseInt(s: string): (r: Option<Int64>) {
    if s != "" && s[0] == '-' then
      var n: int := if IsNumber(s[1..]) then Value(s[1..]) else 0;
      if IsNumber(s[1..]) && n <= -MIN_INT64 then Some(-n) else None
    else
      var digits := if s != "" && s[0] == '+' then s[1..] else s;
      if IsNumber(digits) && Value(digits) <= MAX_INT64 then Some(Value(digits)) else None
  }

  lemma {:induction false} PrintValue(n: nat)
    ensures Value(Print(n)) == n
  {
    if n >= 10 {
      PrintValue(n / 10);
      assert Print(n)[..|Print(n)| - 1] == Print(n / 10);
    } else {
      assert Value(Print(n)[..0]) == 0;
    }
  }

  /** Reading undoes printing, up to the width of the type. */
  lemma PrintParses(n: nat)
    ensures ParseUint(Print(n)) == if n <= MAX_UINT64 then Some(n) else None
    ensures ParseInt(Print(n)) == if n <= MAX_INT64 then Some(n) else None
  {
    PrintValue(n);
    assert IsDigit(Print(n)[0]);
  }

  lemma SignedParses(s: string)
    requires IsNumber(s)
    ensures ParseInt("+" + s) == ParseInt(s)
  {
    assert ("+" + s)[1..] == s;
    assert IsDigit(s[0]);
  }

  /** The text is this number: digits after at most one sign. */
  ghost predicate Spells(s: string, n: int) {
    exists digits :: SpelledBy(s, n, digits)
  }

  predicate SpelledBy(s: string, n: int, digits: string) {
    && IsNumber(digits)
    && (((s == digits || s == "+" + digits) && n == Value(digits))
        || (s == "-" + digits && n + Value(digits) == 0))
  }

  /** Which texts are read as which number: just those that spell it, signs included. */
  lemma ParseIntExact(s: string, n: Int64)
    ensures ParseInt(s) == Some(n) <==> Spells(s, n)
  {
    if ParseInt(s) == Some(n) {
      var digits := if s[0] == '-' || s[0] == '+' then s[1..] else s;
      assert s == (if s[0] == '-' then "-" else if s[0] == '+' then "+" else "") + digits;
      assert SpelledBy(s, n, digits);
    }
    forall digits | SpelledBy(s, n, digits) ensures ParseInt(s) == Some(n) {
      assert IsDigit(digits[0]);
      assert s == "+" + digits || s == "-" + digits ==> s[1..] == digits;
    }
  }

  function Pow10(k: nat): nat {
    if k == 0 then 1 else 10 * Pow10(k - 1)
  }

  lemma LastDigit(s: string, c: char)
    requires IsDigit(c) && forall i :: 0 <= i < |s| ==> IsDigit(s[i])
    ensures Value(s + [c]) == Value(s) * 10 + (c as int - '0' as int)
  {
    assert (s + [c])[..|s|] == s;
  }

  lemma TimesTen(d: int, p: int, v: int, l: int)
    ensures (d * p + v) * 10 + l == d * (10 * p) + (v * 10 + l)
  {
  }

  /** The leading digit counts most. */
  lemma {:induction false} LeadingDigit(c: char, s: string)
    requires IsDigit(c) && forall i :: 0 <= i < |s| ==> IsDigit(s[i])
    ensures Value([c] + s) == (c as int - '0' as int) * Pow10(|s|) + Value(s)
  {
    hide Value;
    if s == "" {
      OneDigit(c);
    } else {
      var front, last := s[..|s| - 1], s[|s| - 1];
      assert IsDigit(last) && s == front + [last] && [c] + s == ([c] + front) + [last];
      LeadingDigit(c, front);
      LastDigit([c] + front, last);
      LastDigit(front, last);
      TimesTen(c as int - '0' as int, Pow10(|front|), Value(front), last as int - '0' as int);
    }
  }

  lemma OneDigit(c: char)
    requires IsDigit(c)
    ensures Value("") == 0 && Value([c] + "") == c as int - '0' as int && [c] + "" == [c]
    ensures (c as int - '0' as int) * Pow10(0) == c as int - '0' as int
  {
    LastDigit("", c);
  }
}
