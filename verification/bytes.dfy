/** Byte strings and the two ways the core turns them into integers:
    math/big's SetBytes (unsigned big-endian) and encoding/binary's
    LittleEndian.Uint64, followed by Go's int conversion. */
module Bytes {

  type byte = x: int | 0 <= x < 256

  function Pow256(k: nat): (p: nat)
    ensures p >= 1
  {
    if k == 0 then 1 else 256 * Pow256(k - 1)
  }

  /** The unsigned big-endian value of `s` (big.Int.SetBytes). */
  function BigEndian(s: seq<byte>): (v: nat)
    decreases |s|
  {
    if |s| == 0 then 0 else BigEndian(s[..|s| - 1]) * 256 + s[|s| - 1]
  }

  /** The unsigned little-endian value of `s`. */
  function LittleEndian(s: seq<byte>): (v: nat)
    decreases |s|
  {
    if |s| == 0 then 0 else s[0] + 256 * LittleEndian(s[1..])
  }

  function Reverse(s: seq<byte>): (r: seq<byte>)
    ensures |r| == |s|
    ensures forall i :: 0 <= i < |s| ==> r[i] == s[|s| - 1 - i]
  {
    if |s| == 0 then [] else Reverse(s[1..]) + [s[0]]
  }

  function Zeros(n: nat): (z: seq<byte>)
    ensures |z| == n
    ensures forall i :: 0 <= i < n ==> z[i] == 0
  {
    if n == 0 then [] else [0] + Zeros(n - 1)
  }

  /** A value read from `k` bytes is below 256^k. */
  lemma {:induction false} LittleEndianBound(s: seq<byte>)
    ensures LittleEndian(s) < Pow256(|s|)
    decreases |s|
  {
    if |s| > 0 {
      LittleEndianBound(s[1..]);
      assert LittleEndian(s) <= 255 + 256 * (Pow256(|s| - 1) - 1);
    }
  }

  /** Trailing zero bytes do not change a little-endian value. */
  lemma {:induction false} LittleEndianZeroPadding(s: seq<byte>, n: nat)
    ensures LittleEndian(s + Zeros(n)) == LittleEndian(s)
    decreases |s|, n
  {
    if |s| == 0 {
      assert s + Zeros(n) == Zeros(n);
      if n > 0 {
        assert Zeros(n)[1..] == Zeros(n - 1) == [] + Zeros(n - 1);
        LittleEndianZeroPadding([], n - 1);
      }
    } else {
      assert (s + Zeros(n))[1..] == s[1..] + Zeros(n);
      LittleEndianZeroPadding(s[1..], n);
    }
  }

  /** Reading little-endian is reading the reversed bytes big-endian. */
  lemma {:induction false} LittleEndianIsReversedBigEndian(s: seq<byte>)
    ensures LittleEndian(s) == BigEndian(Reverse(s))
    decreases |s|
  {
    if |s| > 0 {
      var r := Reverse(s);
      assert r[..|r| - 1] == Reverse(s[1..]);
      assert r[|r| - 1] == s[0];
      LittleEndianIsReversedBigEndian(s[1..]);
    }
  }

  /** The byte string the source builds before reading the exponent: shorter
      strings are zero-padded at the end up to 8 bytes, longer ones are kept. */
  function PadTo8(b: seq<byte>): (p: seq<byte>)
    ensures |p| == if |b| < 8 then 8 else |b|
    ensures p[..|b|] == b
    ensures forall i :: |b| <= i < |p| ==> p[i] == 0
  {
    if |b| < 8 then b + Zeros(8 - |b|) else b
  }

  /** binary.LittleEndian.Uint64: the first eight bytes, little-endian. */
  function Uint64LE(b: seq<byte>): (v: nat)
    requires |b| >= 8
    ensures v < 0x1_0000_0000_0000_0000
  {
    LittleEndianBound(b[..8]);
    assert Pow256(8) == 0x1_0000_0000_0000_0000;
    LittleEndian(b[..8])
  }

  /** Go's int(u) for a uint64 on a 64-bit platform: two's complement. */
  function GoInt(u: nat): (i: int)
    requires u < 0x1_0000_0000_0000_0000
    ensures -0x8000_0000_0000_0000 <= i < 0x8000_0000_0000_0000
    ensures i % 0x1_0000_0000_0000_0000 == u
  {
    if u < 0x8000_0000_0000_0000 then u else u - 0x1_0000_0000_0000_0000
  }
}
