/**
  The contract ABI encoding of the tuple (address, address), which graph-ts's
  `ethereum.encode` produces for the revision key. Both members are static, so
  the encoding is just their head words: each address is left-padded with 12
  zero bytes to one 32-byte word (the Solidity contract ABI specification,
  "Formal Specification of the Encoding").
 */
module Abi {
  import opened Wrappers
  import opened Hex

  /** The 12 zero bytes that pad an address to a word. */
  const Padding: Bytes := [0, 0, 0, 0, 0, 0, 0, 0, 0, 0, 0, 0]

  /** One 32-byte word holding an address. */
  function AddressWord(a: Address): (w: Bytes)
    ensures |w| == 32
    ensures w[12..] == a
    ensures w[..12] == Padding
  {
    Padding + a
  }

  /** `encode([Value.fromAddress(first), Value.fromAddress(second)])` as a tuple. */
  function EncodeAddressPair(first: Address, second: Address): (enc: Bytes)
    ensures |enc| == 64
    ensures enc[..12] == Padding && enc[12..32] == first
    ensures enc[32..44] == Padding && enc[44..64] == second
  {
    var enc := AddressWord(first) + AddressWord(second);
    assert enc[..32] == AddressWord(first) && enc[32..] == AddressWord(second);
    assert enc[..12] == AddressWord(first)[..12] && enc[12..32] == AddressWord(first)[12..];
    assert enc[32..44] == AddressWord(second)[..12] && enc[44..64] == AddressWord(second)[12..];
    enc
  }

  /** Reads two address words back; None when the length or the padding is wrong. */
  function DecodeAddressPair(enc: Bytes): Option<(Address, Address)>
  {
    if |enc| == 64 && enc[..12] == Padding && enc[32..44] == Padding then
      Some((enc[12..32], enc[44..64]))
    else
      None
  }

  lemma EncodeRoundTrip(first: Address, second: Address)
    ensures DecodeAddressPair(EncodeAddressPair(first, second)) == Some((first, second))
  {
    var enc := EncodeAddressPair(first, second);
    assert enc[..32] == AddressWord(first) && enc[32..] == AddressWord(second);
    assert enc[12..32] == AddressWord(first)[12..];
    assert enc[44..64] == AddressWord(second)[12..];
  }

  /** Distinct pairs have distinct encodings, so only a hash collision can merge them. */
  lemma EncodeInjective(a: Address, b: Address, c: Address, d: Address)
    ensures EncodeAddressPair(a, b) == EncodeAddressPair(c, d) <==> a == c && b == d
  {
    EncodeRoundTrip(a, b);
    EncodeRoundTrip(c, d);
  }

}
