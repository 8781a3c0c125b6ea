// Java's `String.valueOf(int)` (the decimal form of an id) and
// `String.contains` (case-sensitive substring test), as used by the
// search-by-fragment handlers.
module Decimal {
  import opened Basics

  predicate IsDigit(c: char) { '0' <= c <= '9' }

  predicate AllDigits(s: string) { forall i :: 0 <= i < |s| ==> IsDigit(s[i]) }

  function DigitChar(d: nat): (c: char)
    requires d < 10
    ensures IsDigit(c) && (c as int) - ('0' as int) == d
  {
    (('0' as int) + d) as char
  }

  /** The shortest decimal numeral of `n`: digits only, and no leading zero
      unless `n` is zero itself. */
  function NatToDecimal(n: nat): (s: string)
    ensures 1 <= |s|
    ensures AllDigits(s)
    ensures s[0] == '0' <==> n == 0
    decreases n
  {
    if n < 10 then [DigitChar(n)] else NatToDecimal(n / 10) + [DigitChar(n % 10)]
  }

  /** The value of a numeral of decimal digits (the reading direction of
      `Integer.parseInt` on a non-negative numeral). */
  function DecimalValue(s: string): (v: nat)
    requires AllDigits(s)
  {
    if s == [] then 0
    else DecimalValue(s[..|s| - 1]) * 10 + ((s[|s| - 1] as int) - ('0' as int))
  }

  /** `String.valueOf(int)`: a minus sign before negative values. */
  function IntToString(x: int32): (s: string)
  {
    if x < 0 then "-" + NatToDecimal(-(x as int)) else NatToDecimal(x as int)
  }

  /** Reads back a numeral written by IntToString. */
  function ParseInt(s: string): (v: int)
  {
    if |s| > 0 && s[0] == '-' && AllDigits(s[1..]) then -(DecimalValue(s[1..]) as int)
    else if AllDigits(s) then DecimalValue(s)
    else 0
  }

  lemma {:induction false} DecimalRoundTrip(n: nat)
    ensures DecimalValue(NatToDecimal(n)) == n
    decreases n
  {
    if n >= 10 {
      var s := NatToDecimal(n);
      assert s[..|s| - 1] == NatToDecimal(n / 10);
      DecimalRoundTrip(n / 10);
    }
  }

  /** The decimal form of an id identifies it: IntToString is invertible. */
  lemma IntToStringRoundTrip(x: int32)
    ensures ParseInt(IntToString(x)) == x as int
  {
    var s := IntToString(x);
    if x < 0 {
      assert s[1..] == NatToDecimal(-(x as int));
      DecimalRoundTrip(-(x as int));
    } else {
      DecimalRoundTrip(x as int);
    }
  }

  /** Distinct ids have distinct decimal forms. */
  lemma IntToStringInjective(x: int32, y: int32)
    requires IntToString(x) == IntToString(y)
    ensures x == y
  {
    IntToStringRoundTrip(x);
    IntToStringRoundTrip(y);
  }

  /** `s.contains(t)`: `t` occurs somewhere in `s`, compared char by char. */
  predicate Contains(s: string, t: string)
  {
    exists i | 0 <= i <= |s| :: t <= s[i..]
  }

  /** The empty string is contained in every string. */
  lemma ContainsEmpty(s: string)
    ensures Contains(s, "")
  {
    assert "" <= s[0..];
  }

  /** Every string contains itself. */
  lemma ContainsSelf(s: string)
    ensures Contains(s, s)
  {
    assert s <= s[0..];
  }

  /** A fragment longer than the string never occurs in it. */
  lemma ContainsShorter(s: string, t: string)
    requires Contains(s, t)
    ensures |t| <= |s|
  {
  }

  /** Fragment "1" matches ids 1, 10 and also 21, but not 5. */
  lemma FragmentOneExamples()
    ensures Contains(IntToString(1), "1")
    ensures Contains(IntToString(10), "1")
    ensures Contains(IntToString(21), "1")
    ensures !Contains(IntToString(5), "1")
  {
    assert IntToString(1) == "1";
    assert IntToString(10) == "10";
    assert IntToString(21) == "21";
    assert IntToString(5) == "5";
    assert "1" <= IntToString(1)[0..];
    assert "1" <= IntToString(10)[0..];
    assert "1" <= IntToString(21)[1..];
  }
}
