/**
 * Python's `f"{i:02d}"`: the decimal form of an integer, zero-padded to at
 * least two characters. For a negative number the sign already makes the
 * width, so `-5` formats as "-5" and `-15` as "-15".
 */
module Decimal {

  predicate IsDigits(s: string)
  {
    forall k :: 0 <= k < |s| ==> '0' <= s[k] <= '9'
  }

  function DigitChar(d: nat): (c: char)
    requires d < 10
    ensures '0' <= c <= '9'
  {
    ('0' as int + d) as char
  }

  function DigitValue(c: char): (d: nat)
    requires '0' <= c <= '9'
    ensures d < 10 && DigitChar(d) == c
  {
    c as int - '0' as int
  }

  /** `str(n)` for a natural number: its digits, most significant first. */
  function NatToString(n: nat): (r: string)
    ensures r != [] && IsDigits(r)
    ensures n < 100 ==> |r| <= 2
    decreases n
  {
    if n < 10 then [DigitChar(n)]
    else NatToString(n / 10) + [DigitChar(n % 10)]
  }

  /** The number a string of decimal digits denotes (`int(s)`). */
  function DecimalValue(s: string): nat
    requires IsDigits(s)
    decreases |s|
  {
    if s == [] then 0
    else 10 * DecimalValue(s[..|s| - 1]) + DigitValue(s[|s| - 1])
  }

  /** `f"{i:02d}"` */
  function Pad2(i: int): (r: string)
    ensures 2 <= |r|
    ensures 0 <= i <= 99 ==> |r| == 2 && IsDigits(r)
  {
    if 0 <= i < 10 then ['0', DigitChar(i)]
    else if 10 <= i then NatToString(i)
    else "-" + NatToString(-i)
  }

  /** Strings `Pad2` can produce: digits, or a minus sign followed by digits. */
  predicate IsPadded(s: string)
  {
    IsDigits(s) || (s != [] && s[0] == '-' && IsDigits(s[1..]))
  }

  /** `int(s)` on the strings `Pad2` produces. */
  function ParsePadded(s: string): int
    requires IsPadded(s)
  {
    if s != [] && s[0] == '-' then 0 - DecimalValue(s[1..]) as int else DecimalValue(s)
  }

  lemma {:induction false} NatToStringRoundTrip(n: nat)
    ensures DecimalValue(NatToString(n)) == n
    decreases n
  {
    var r := NatToString(n);
    if n >= 10 {
      NatToStringRoundTrip(n / 10);
      assert r[..|r| - 1] == NatToString(n / 10);
    }
  }

  /** Reading back what `Pad2` wrote gives the original number. */
  lemma Pad2RoundTrip(i: int)
    ensures IsPadded(Pad2(i))
    ensures ParsePadded(Pad2(i)) == i
  {
    if 0 <= i < 10 {
      assert Pad2(i)[..1] == "0";
      assert DecimalValue("0") == 10 * DecimalValue([]) + 0;
    } else if 10 <= i {
      NatToStringRoundTrip(i);
    } else {
      NatToStringRoundTrip(-i);
      assert Pad2(i)[1..] == NatToString(-i);
    }
  }

  /** Distinct numbers never share a zero-padded name. */
  lemma Pad2Injective(i: int, j: int)
    ensures Pad2(i) == Pad2(j) ==> i == j
  {
    Pad2RoundTrip(i);
    Pad2RoundTrip(j);
  }
}
