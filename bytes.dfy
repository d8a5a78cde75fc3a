/**
 * Unsigned big-endian byte strings: the bytes `int.to_bytes(len, "big", signed=False)`
 * produces, and the integer they denote.
 */
module Bytes {

  type Byte = x: int | 0 <= x < 0x100

  /** The number of values `len` bytes can hold, 256^len. */
  function Pow256(len: nat): (p: nat)
    ensures p >= 1
  {
    if len == 0 then 1 else 0x100 * Pow256(len - 1)
  }

  lemma Pow256Four()
    ensures Pow256(4) == 0x1_0000_0000
  {
  }

  lemma DivByteBound(n: nat, p: nat)
    requires n < 0x100 * p
    ensures n / 0x100 < p
  {
  }

  /** `n` written as exactly `len` bytes, most significant byte first. */
  function ToBigEndian(n: nat, len: nat): (r: seq<Byte>)
    requires n < Pow256(len)
    ensures |r| == len
    decreases len
  {
    if len == 0 then []
    else
      DivByteBound(n, Pow256(len - 1));
      ToBigEndian(n / 0x100, len - 1) + [n % 0x100]
  }

  /** The unsigned integer a big-endian byte string denotes. */
  function FromBigEndian(bs: seq<Byte>): (n: nat)
    ensures n < Pow256(|bs|)
  {
    if bs == [] then 0 else FromBigEndian(bs[..|bs| - 1]) * 0x100 + bs[|bs| - 1]
  }

  /** Decoding the bytes of `n` gives `n` back. */
  lemma {:induction false} FromToBigEndian(n: nat, len: nat)
    requires n < Pow256(len)
    ensures FromBigEndian(ToBigEndian(n, len)) == n
  {
    if len > 0 {
      DivByteBound(n, Pow256(len - 1));
      var r := ToBigEndian(n, len);
      assert r[..len - 1] == ToBigEndian(n / 0x100, len - 1);
      FromToBigEndian(n / 0x100, len - 1);
    }
  }

  /** Encoding the integer a byte string denotes, at the same width, gives the bytes back. */
  lemma {:induction false} ToFromBigEndian(bs: seq<Byte>)
    ensures ToBigEndian(FromBigEndian(bs), |bs|) == bs
  {
    if bs != [] {
      var front, last := bs[..|bs| - 1], bs[|bs| - 1];
      var n := FromBigEndian(bs);
      assert n / 0x100 == FromBigEndian(front) && n % 0x100 == last;
      ToFromBigEndian(front);
      assert bs == front + [last];
    }
  }
}
