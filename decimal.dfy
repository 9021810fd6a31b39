/**
 * Decimal text of an integer, as std::to_string writes it: an optional
 * '-' followed by the digits without leading zeros. A reader of that text
 * is its partner, and the round trip is proved.
 */
module Decimal {

  predicate IsDigit(c: char) {
    '0' <= c <= '9'
  }

  function Digit(d: nat): (c: char)
    requires d < 10
    ensures IsDigit(c) && c as int - '0' as int == d
  {
    ('0' as int + d) as char
  }

  function DigitValue(c: char): (d: nat)
    requires IsDigit(c)
    ensures d < 10
  {
    c as int - '0' as int
  }

  /** The digits of n, most significant first, with no leading zero. */
  function NatString(n: nat): (s: string)
    ensures |s| >= 1
    ensures forall i :: 0 <= i < |s| ==> IsDigit(s[i])
    ensures |s| > 1 ==> s[0] != '0'
    decreases n
  {
    if n < 10 then [Digit(n)] else NatString(n / 10) + [Digit(n % 10)]
  }

  /** std::to_string of an integer. */
  function DecimalString(v: int): (s: string)
    ensures |s| >= 1
    ensures (s[0] == '-') <==> v < 0
  {
    if v < 0 then "-" + NatString(-v) else NatString(v)
  }

  /** The value of a string of digits. */
  function ParseNat(s: string): nat
    requires forall i :: 0 <= i < |s| ==> IsDigit(s[i])
    decreases |s|
  {
    if |s| == 0 then 0
    else
      assert IsDigit(s[|s| - 1]);
      10 * ParseNat(s[..|s| - 1]) + DigitValue(s[|s| - 1])
  }

  /** The value of decimal text with an optional leading '-'. */
  function ParseDecimal(s: string): int
    requires |s| >= 1
    requires forall i :: (if s[0] == '-' then 1 else 0) <= i < |s| ==> IsDigit(s[i])
  {
    if s[0] == '-' then 0 - ParseNat(s[1..]) as int else ParseNat(s)
  }

  lemma {:induction false} ParseNatString(n: nat)
    ensures ParseNat(NatString(n)) == n
    decreases n
  {
    if n >= 10 {
      var s := NatString(n);
      ParseNatString(n / 10);
      assert s[..|s| - 1] == NatString(n / 10);
    }
  }

  /** Reading back the decimal text of v gives v. */
  lemma DecimalRoundTrip(v: int)
    ensures ParseDecimal(DecimalString(v)) == v
  {
    if v < 0 {
      ParseNatString(-v);
      assert DecimalString(v)[1..] == NatString(-v);
    } else {
      ParseNatString(v);
    }
  }

  /** Different integers have different decimal text. */
  lemma DecimalStringInjective(v: int, w: int)
    requires DecimalString(v) == DecimalString(w)
    ensures v == w
  {
    DecimalRoundTrip(v);
    DecimalRoundTrip(w);
  }
}
