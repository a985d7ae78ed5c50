/** PHP's conversion of an integer to its decimal string, as `(string) $i`
    and string interpolation perform it, with the inverse parse. */
module Decimal {
  import opened Wrappers

  predicate IsDigit(c: char)
  {
    '0' <= c <= '9'
  }

  predicate IsDigits(s: string)
  {
    |s| > 0 && forall k :: 0 <= k < |s| ==> IsDigit(s[k])
  }

  function DigitValue(c: char): nat
    requires IsDigit(c)
  {
    c as int - '0' as int
  }

  function DigitChar(d: nat): (c: char)
    requires d < 10
    ensures IsDigit(c) && DigitValue(c) == d
  {
    (d + '0' as int) as char
  }

  /** The decimal digits of `n`, most significant first, with no leading zero. */
  function NatString(n: nat): (s: string)
    ensures IsDigits(s)
    ensures s[0] == '0' ==> n == 0
    decreases n
  {
    if n < 10 then [DigitChar(n)] else NatString(n / 10) + [DigitChar(n % 10)]
  }

  /** `(string) $i`: an optional minus sign followed by the digits of `|i|`. */
  function IntString(i: int): (s: string)
    ensures |s| > 0
    ensures forall k :: 0 <= k < |s| ==> IsDigit(s[k]) || (k == 0 && s[k] == '-' && i < 0)
  {
    if i < 0 then "-" + NatString(-i) else NatString(i)
  }

  /** The value of a digit string. */
  function ParseNat(s: string): nat
    requires IsDigits(s)
    decreases |s|
  {
    if |s| == 1 then DigitValue(s[0])
    else 10 * ParseNat(s[..|s| - 1]) + DigitValue(s[|s| - 1])
  }

  /** The integer an optionally signed digit string denotes. */
  function ParseInt(s: string): Option<int>
  {
    if IsDigits(s) then Some(ParseNat(s))
    else if |s| > 1 && s[0] == '-' && IsDigits(s[1..]) then Some(-(ParseNat(s[1..]) as int))
    else None
  }

  lemma {:induction false} ParseNatString(n: nat)
    ensures ParseNat(NatString(n)) == n
  {
    if n >= 10 {
      var s := NatString(n);
      assert s[..|s| - 1] == NatString(n / 10);
      ParseNatString(n / 10);
    }
  }

  /** Reading back the decimal string of an integer gives the integer. */
  lemma IntStringRoundTrip(i: int)
    ensures ParseInt(IntString(i)) == Some(i)
  {
    var s := IntString(i);
    if i < 0 {
      assert !IsDigit(s[0]);
      assert s[1..] == NatString(-i);
      ParseNatString(-i);
    } else {
      ParseNatString(i);
    }
  }

  /** Distinct integers print differently. */
  lemma IntStringInjective(i: int, j: int)
    ensures IntString(i) == IntString(j) ==> i == j
  {
    IntStringRoundTrip(i);
    IntStringRoundTrip(j);
  }
}
