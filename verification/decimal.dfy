/**
  Decimal text of integers, and the text AssemblyScript's `number` (a 64-bit
  float) gives for an integral value: its `toString` prints the decimal digits
  followed by ".0" (zero prints as "0.0") for every integral value below 10^21
  in magnitude, which covers all 32-bit integers. `ParseInt` is the inverse
  used to prove that the text determines the value.
 */
module Decimal {
  import opened Wrappers

  /** A 32-bit signed integer, the width of an `Int` entity field. */
  type Int32 = x: int | -0x8000_0000 <= x < 0x8000_0000

  function DecimalDigit(d: int): (c: char)
    requires 0 <= d < 10
    ensures '0' <= c <= '9'
  {
    ('0' as int + d) as char
  }

  /** Decimal digits of `n`, most significant first, with no leading zero. */
  function NatText(n: nat): (s: string)
    ensures |s| >= 1
    ensures forall i :: 0 <= i < |s| ==> '0' <= s[i] <= '9'
    ensures |s| > 1 ==> s[0] != '0'
  {
    if n < 10 then [DecimalDigit(n)] else NatText(n / 10) + [DecimalDigit(n % 10)]
  }

  /** Decimal text of `i`, with a leading '-' when it is negative. */
  function IntText(i: int): (s: string)
    ensures |s| >= 1
    ensures s[0] == '-' <==> i < 0
  {
    if i < 0 then "-" + NatText(-i) else NatText(i)
  }

  /**
    `toString` of an integral AssemblyScript `number` (a 64-bit float): the
    decimal text of the value, then ".0".
   */
  function NumberText(i: Int32): (s: string)
    ensures |s| >= 3
    ensures s[|s| - 2..] == ".0"
    ensures ParseInt(s[..|s| - 2]) == Some(i as int)
  {
    var text := IntText(i) + ".0";
    assert text[..|text| - 2] == IntText(i);
    IntTextRoundTrip(i);
    text
  }

  /** Reads a non-empty string of decimal digits; None on anything else. */
  function ParseNat(s: string): Option<nat>
    decreases |s|
  {
    if |s| == 0 || !('0' <= s[|s| - 1] <= '9') then None
    else
      var d := s[|s| - 1] as int - '0' as int;
      if |s| == 1 then Some(d)
      else
        match ParseNat(s[..|s| - 1])
        case Some(p) => Some(p * 10 + d)
        case None => None
  }

  /** Reads text with an optional leading '-'. */
  function ParseInt(s: string): Option<int>
  {
    if |s| >= 1 && s[0] == '-' then
      match ParseNat(s[1..])
      case Some(n) => Some(-(n as int))
      case None => None
    else
      match ParseNat(s)
      case Some(n) => Some(n as int)
      case None => None
  }

  lemma {:induction false} NatTextRoundTrip(n: nat)
    ensures ParseNat(NatText(n)) == Some(n)
  {
    if n >= 10 {
      var s := NatText(n);
      assert s[..|s| - 1] == NatText(n / 10);
      NatTextRoundTrip(n / 10);
    }
  }

  lemma IntTextRoundTrip(i: int)
    ensures ParseInt(IntText(i)) == Some(i)
  {
    var s := IntText(i);
    if i < 0 {
      var digits := NatText(-i);
      assert s == "-" + digits;
      assert s[1..] == digits;
      NatTextRoundTrip(-i);
      assert ParseNat(s[1..]) == Some(-i);
    } else {
      assert s == NatText(i);
      assert '0' <= s[0] <= '9';
      NatTextRoundTrip(i);
      assert ParseNat(s) == Some(i);
    }
  }

  /** Two indices print the same exactly when they are equal. */
  lemma NumberTextInjective(a: Int32, b: Int32)
    ensures NumberText(a) == NumberText(b) <==> a == b
  {
    if NumberText(a) == NumberText(b) {
      var sa, sb := NumberText(a), NumberText(b);
      assert IntText(a) == sa[..|sa| - 2];
      assert IntText(b) == sb[..|sb| - 2];
      IntTextRoundTrip(a);
      IntTextRoundTrip(b);
    }
  }

}
