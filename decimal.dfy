/** Java's decimal rendering of a long (`"..." + id`), used in the not-found message. */
module Decimal {

  predicate IsDigit(c: char) {
    '0' <= c <= '9'
  }

  function DigitChar(d: nat): (c: char)
    requires d < 10
    ensures IsDigit(c) && c as int - '0' as int == d
  {
    (d + '0' as int) as char
  }

  /** The decimal digits of `n`, most significant first, without leading zeros. */
  function NatToString(n: nat): (s: string)
    ensures |s| >= 1
    ensures forall i | 0 <= i < |s| :: IsDigit(s[i])
    ensures |s| > 1 ==> s[0] != '0'
    decreases n
  {
    if n < 10 then [DigitChar(n)] else NatToString(n / 10) + [DigitChar(n % 10)]
  }

  /** Long.toString: a minus sign for negative values, then the digits of the magnitude. */
  function LongToString(n: int): (s: string)
    ensures |s| >= 1
    ensures s[0] == '-' <==> n < 0
  {
    if n < 0 then "-" + NatToString(-n) else NatToString(n)
  }

  /** The value of a string of decimal digits (the reading back of NatToString). */
  function DigitsValue(s: string): nat
    requires forall i | 0 <= i < |s| :: IsDigit(s[i])
  {
    if s == [] then 0 else DigitsValue(s[..|s| - 1]) * 10 + DigitValue(s[|s| - 1])
  }

  function DigitValue(c: char): (d: nat)
    requires IsDigit(c)
    ensures d < 10
  {
    c as int - '0' as int
  }

  lemma {:induction false} DigitsValueOfNatToString(n: nat)
    ensures DigitsValue(NatToString(n)) == n
  {
    if n >= 10 {
      var s := NatToString(n);
      assert s[..|s| - 1] == NatToString(n / 10);
      DigitsValueOfNatToString(n / 10);
    }
  }

  /** Different ids render differently: the rendering can be read back. */
  lemma LongToStringInjective(a: int, b: int)
    requires LongToString(a) == LongToString(b)
    ensures a == b
  {
    var s := LongToString(a);
    assert a < 0 <==> b < 0;
    if a < 0 {
      assert s[1..] == NatToString(-a) == NatToString(-b);
      DigitsValueOfNatToString(-a);
      DigitsValueOfNatToString(-b);
    } else {
      DigitsValueOfNatToString(a);
      DigitsValueOfNatToString(b);
    }
  }
}
