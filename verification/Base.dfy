/**
 Bytes, outcomes and big-endian numbers shared by the whole model.

 Go reports failure in two ways that the callers tell apart: an `error` result and a
 panic. `Outcome` keeps both.
 */
module Base {

  type byte = x: int | 0 <= x < 256
  type bytes = seq<byte>

  /** Go's `int` on a 64-bit platform; slice lengths and offsets have this type too. */
  const MIN_INT := -0x8000_0000_0000_0000
  const MAX_INT := 0x7FFF_FFFF_FFFF_FFFF
  type int64 = x: int | MIN_INT <= x <= MAX_INT

  datatype Option<+T> = None | Some(value: T)

  datatype Outcome<+T> = Ok(value: T) | Err | Panic

  /**
   A Go byte slice: its own bytes, and the bytes between its length and its capacity, which
   re-slicing brings back.
   */
  datatype Slice = Slice(data: bytes, spare: bytes) {
    function Reach(): bytes {
      data + spare
    }
  }

  /** The bytes of an ASCII literal. */
  function Ascii(s: string): (r: bytes)
    ensures |r| == |s|
    ensures forall i :: 0 <= i < |s| ==> r[i] == s[i] as int % 256
  {
    seq(|s|, i requires 0 <= i < |s| => s[i] as int % 256)
  }

  /** Two's complement wrap-around of a 64-bit product. */
  function Wrap64(n: int): (r: int64)
    ensures MIN_INT <= n <= MAX_INT ==> r == n
    ensures (r - n) % 0x1_0000_0000_0000_0000 == 0
  {
    (n + 0x8000_0000_0000_0000) % 0x1_0000_0000_0000_0000 - 0x8000_0000_0000_0000
  }

  function Pow256(width: nat): (r: nat)
    ensures r > 0
  {
    if width == 0 then 1 else 256 * Pow256(width - 1)
  }

  /** Big-endian encoding; the high bits that do not fit are dropped, as Go's conversions do. */
  function ToBigEndian(n: nat, width: nat): (r: bytes)
    ensures |r| == width
  {
    if width == 0 then [] else ToBigEndian(n / 256, width - 1) + [n % 256]
  }

  function FromBigEndian(bs: bytes): nat {
    if bs == [] then 0 else FromBigEndian(bs[..|bs| - 1]) * 256 + bs[|bs| - 1]
  }

  lemma {:induction false} FromBigEndianBound(bs: bytes)
    ensures FromBigEndian(bs) < Pow256(|bs|)
  {
    if bs != [] {
      FromBigEndianBound(bs[..|bs| - 1]);
    }
  }

  lemma {:induction false} BigEndianRoundTrip(n: nat, width: nat)
    requires n < Pow256(width)
    ensures FromBigEndian(ToBigEndian(n, width)) == n
  {
    if width != 0 {
      var r := ToBigEndian(n, width);
      assert r[..width - 1] == ToBigEndian(n / 256, width - 1);
      BigEndianRoundTrip(n / 256, width - 1);
    }
  }

  /** And back: every byte sequence is the encoding of its number. */
  lemma {:induction false} BigEndianInverse(bs: bytes)
    ensures ToBigEndian(FromBigEndian(bs), |bs|) == bs
  {
    if bs != [] {
      var last := |bs| - 1;
      BigEndianInverse(bs[..last]);
      var n := FromBigEndian(bs);
      assert n / 256 == FromBigEndian(bs[..last]) && n % 256 == bs[last];
      assert bs == bs[..last] + [bs[last]];
    }
  }

  lemma Distribute(a: nat, p: nat, x: nat)
    ensures (a * p + x) * 256 == a * (256 * p) + x * 256
  {
  }

  /** The first byte is the most significant one. */
  lemma {:induction false} MostSignificantFirst(bs: bytes)
    requires bs != []
    ensures FromBigEndian(bs) == bs[0] * Pow256(|bs| - 1) + FromBigEndian(bs[1..])
    decreases |bs|
  {
    var last := |bs| - 1;
    if last > 0 {
      MostSignificantFirst(bs[..last]);
      assert bs[..last][1..] == bs[1..][..last - 1];
      assert bs[1..][last - 1] == bs[last];
      Distribute(bs[0], Pow256(last - 1), FromBigEndian(bs[1..][..last - 1]));
    }
  }

  /** Four bytes on the wire, as a number. */
  lemma FourBytes(a: byte, b: byte, c: byte, d: byte)
    ensures FromBigEndian([a, b, c, d]) == 16777216 * a + 65536 * b + 256 * c + d
  {
    MostSignificantFirst([a, b, c, d]);
    MostSignificantFirst([b, c, d]);
    MostSignificantFirst([c, d]);
    MostSignificantFirst([d]);
    assert [a, b, c, d][1..] == [b, c, d] && [b, c, d][1..] == [c, d] && [c, d][1..] == [d] && [d][1..] == [];
    assert Pow256(0) == 1 && Pow256(1) == 256 && Pow256(2) == 65536 && Pow256(3) == 16777216;
  }
}
