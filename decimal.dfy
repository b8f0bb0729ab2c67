/** Decimal text of integers, as Python's `str(int)` and f-string
    interpolation produce it: an optional `-`, then the digits with no
    leading zero. `ParseInt` is its inverse; it exists so that the
    formatting can be proved to lose no information. */
module Decimal {

  predicate IsDigit(c: char) {
    '0' <= c <= '9'
  }

  function DigitChar(d: int): (c: char)
    requires 0 <= d < 10
    ensures IsDigit(c) && c as int - '0' as int == d
  {
    ('0' as int + d) as char
  }

  /** The decimal digits of `n`, most significant first. */
  function NatToString(n: nat): string
    decreases n
  {
    if n < 10 then [DigitChar(n)] else NatToString(n / 10) + [DigitChar(n % 10)]
  }

  /** `str(i)` for a Python int. */
  function IntToString(i: int): string {
    if i < 0 then "-" + NatToString(-i) else NatToString(i)
  }

  /** The value of a string of decimal digits, read most significant first. */
  function DigitsValue(s: string): int {
    if s == [] then 0 else DigitsValue(s[..|s| - 1]) * 10 + (s[|s| - 1] as int - '0' as int)
  }

  function ParseInt(s: string): int {
    if |s| > 0 && s[0] == '-' then -DigitsValue(s[1..]) else DigitsValue(s)
  }

  /** `NatToString(n)` is a non-empty digit string, without a leading zero
      unless it is "0", whose value is `n`. */
  lemma {:induction false} NatToStringDigits(n: nat)
    ensures var s := NatToString(n);
      && |s| > 0
      && (forall k :: 0 <= k < |s| ==> IsDigit(s[k]))
      && (s[0] == '0' <==> n == 0)
      && DigitsValue(s) == n
    decreases n
  {
    if n >= 10 {
      NatToStringDigits(n / 10);
      var s := NatToString(n);
      assert s[..|s| - 1] == NatToString(n / 10);
    }
  }

  lemma IntRoundTrip(i: int)
    ensures ParseInt(IntToString(i)) == i
  {
    var a := if i < 0 then -i else i;
    NatToStringDigits(a);
    if i < 0 {
      assert IntToString(i)[1..] == NatToString(a);
    }
  }

  lemma IntToStringInjective(a: int, b: int)
    requires IntToString(a) == IntToString(b)
    ensures a == b
  {
    IntRoundTrip(a);
    IntRoundTrip(b);
  }

  /** Every character of `str(i)` is a digit or the minus sign. */
  lemma IntToStringChars(i: int)
    ensures |IntToString(i)| > 0
    ensures forall k :: 0 <= k < |IntToString(i)| ==> IsDigit(IntToString(i)[k]) || IntToString(i)[k] == '-'
  {
    NatToStringDigits(if i < 0 then -i else i);
  }
}
