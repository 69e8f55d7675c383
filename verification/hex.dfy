/**
  Byte strings and their hexadecimal text, as produced by graph-ts's
  `Bytes.toHex` (which `Address.toHex` inherits): the prefix "0x" followed by
  two lower-case hexadecimal digits per byte, most significant nibble first.
  `ParseHex` is the inverse used to prove that the text determines the bytes.
 */
module Hex {
  import opened Wrappers

  /** An unsigned 8-bit value. */
  type Byte = x: int | 0 <= x < 256

  /** A 4-bit value: one hexadecimal digit. */
  type Nibble = x: int | 0 <= x < 16

  type Bytes = seq<Byte>

  /** A 20-byte account or contract address. */
  type Address = a: Bytes | |a| == 20 witness seq(20, (_: int) => 0 as Byte)

  /** A 32-byte digest: a keccak-256 hash or a transaction hash. */
  type Hash32 = h: Bytes | |h| == 32 witness seq(32, (_: int) => 0 as Byte)

  /** The lower-case hexadecimal digit for `n`. */
  function HexDigit(n: Nibble): (c: char)
    ensures '0' <= c <= '9' || 'a' <= c <= 'f'
  {
    if n < 10 then ('0' as int + n) as char else ('a' as int + n - 10) as char
  }

  /** The value of a lower-case hexadecimal digit, or None for any other character. */
  function DigitValue(c: char): Option<Nibble>
  {
    if '0' <= c <= '9' then Some(c as int - '0' as int)
    else if 'a' <= c <= 'f' then Some(c as int - 'a' as int + 10)
    else None
  }

  lemma DigitRoundTrip(n: Nibble)
    ensures DigitValue(HexDigit(n)) == Some(n)
  {
  }

  /** The two digits of one byte. */
  function ByteDigits(b: Byte): (s: string)
    ensures |s| == 2
  {
    [HexDigit(b / 16), HexDigit(b % 16)]
  }

  /** The digits of a byte string, without the "0x" prefix. */
  function HexDigits(bs: Bytes): (s: string)
    ensures |s| == 2 * |bs|
    ensures forall i :: 0 <= i < |s| ==> '0' <= s[i] <= '9' || 'a' <= s[i] <= 'f'
  {
    if |bs| == 0 then "" else ByteDigits(bs[0]) + HexDigits(bs[1..])
  }

  /** `Bytes.toHex`: fixed width for a fixed byte length, and never a '-'. */
  function ToHex(bs: Bytes): (s: string)
    ensures |s| == 2 + 2 * |bs|
    ensures s[..2] == "0x"
    ensures forall i :: 0 <= i < |s| ==> s[i] != '-'
  {
    "0x" + HexDigits(bs)
  }

  /** Reads digit pairs back into bytes; None on an odd length or a non-digit. */
  function ParseHexDigits(s: string): Option<Bytes>
    decreases |s|
  {
    if |s| == 0 then Some([])
    else if |s| == 1 then None
    else
      match (DigitValue(s[0]), DigitValue(s[1]), ParseHexDigits(s[2..]))
      case (Some(hi), Some(lo), Some(rest)) => Some([hi as int * 16 + lo as int] + rest)
      case _ => None
  }

  /** Reads "0x"-prefixed hexadecimal text back into bytes. */
  function ParseHex(s: string): Option<Bytes>
  {
    if |s| >= 2 && s[..2] == "0x" then ParseHexDigits(s[2..]) else None
  }

  lemma {:induction false} HexDigitsRoundTrip(bs: Bytes)
    ensures ParseHexDigits(HexDigits(bs)) == Some(bs)
  {
    if |bs| > 0 {
      var s := HexDigits(bs);
      assert s[2..] == HexDigits(bs[1..]);
      HexDigitsRoundTrip(bs[1..]);
      DigitRoundTrip(bs[0] / 16);
      DigitRoundTrip(bs[0] % 16);
      assert [bs[0]] + bs[1..] == bs;
    }
  }

  /** Hexadecimal text round-trips: the text of a byte string determines it. */
  lemma ToHexRoundTrip(bs: Bytes)
    ensures ParseHex(ToHex(bs)) == Some(bs)
  {
    assert ToHex(bs)[2..] == HexDigits(bs);
    HexDigitsRoundTrip(bs);
  }

  lemma ToHexInjective(a: Bytes, b: Bytes)
    ensures ToHex(a) == ToHex(b) <==> a == b
  {
    ToHexRoundTrip(a);
    ToHexRoundTrip(b);
  }

}
