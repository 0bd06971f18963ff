/** Bytes, optional values and fixed-width big-endian integers. */
module Basics {

  type byte = x: int | 0 <= x < 256
  type Bytes = seq<byte>

  datatype Option<+T> = None | Some(value: T)

  function Min(a: int, b: int): int { if a <= b then a else b }

  function Max(a: int, b: int): int { if a >= b then a else b }

  function Pow256(n: nat): nat { if n == 0 then 1 else 256 * Pow256(n - 1) }

  /** The `width` low-order bytes of `n`, most significant first. */
  function BigEndian(n: nat, width: nat): (b: Bytes)
    ensures |b| == width
  {
    if width == 0 then [] else BigEndian(n / 256, width - 1) + [n % 256]
  }

  /** The number a big-endian byte string denotes. */
  function FromBigEndian(b: Bytes): (n: nat)
    ensures n < Pow256(|b|)
  {
    if b == [] then 0 else FromBigEndian(b[..|b| - 1]) * 256 + b[|b| - 1]
  }

  lemma {:induction false} BigEndianRoundTrip(n: nat, width: nat)
    requires n < Pow256(width)
    ensures FromBigEndian(BigEndian(n, width)) == n
  {
    if width != 0 {
      var b := BigEndian(n, width);
      assert b[..width - 1] == BigEndian(n / 256, width - 1);
      BigEndianRoundTrip(n / 256, width - 1);
    }
  }

  lemma {:induction false} FromBigEndianRoundTrip(b: Bytes)
    ensures BigEndian(FromBigEndian(b), |b|) == b
  {
    if b != [] {
      var last := |b| - 1;
      FromBigEndianRoundTrip(b[..last]);
      assert FromBigEndian(b) / 256 == FromBigEndian(b[..last]);
      assert FromBigEndian(b) % 256 == b[last];
      assert b == b[..last] + [b[last]];
    }
  }

  lemma Shift(x: nat, p: nat, rest: nat, last: nat)
    ensures (x * p + rest) * 256 + last == x * (256 * p) + (rest * 256 + last)
  {
  }

  lemma LastByte(b: Bytes)
    requires b != []
    ensures FromBigEndian(b) == FromBigEndian(b[..|b| - 1]) * 256 + b[|b| - 1]
    ensures Pow256(|b|) == 256 * Pow256(|b| - 1)
  {
  }

  /** The first byte of a big-endian number weighs the most. */
  lemma {:induction false} FirstByteWeighs(b: Bytes)
    requires b != []
    ensures FromBigEndian(b) == b[0] * Pow256(|b| - 1) + FromBigEndian(b[1..])
  {
    var n := |b| - 1;
    LastByte(b);
    if n == 0 {
      assert b[..0] == [] && b[1..] == [];
    } else {
      FirstByteWeighs(b[..n]);
      LastByte(b[1..]);
      LastByte(b[..n]);
      hide FromBigEndian, Pow256;
      assert b[..n][1..] == b[1..][..n - 1] && b[1..][n - 1] == b[n];
      Shift(b[0], Pow256(n - 1), FromBigEndian(b[..n][1..]), b[n]);
    }
  }

  lemma TwoBytes(n: nat)
    requires n < 0x1_0000
    ensures BigEndian(n, 2) == [n / 256, n % 256]
  {
    assert BigEndian(n / 256, 1) == BigEndian(n / 65536, 0) + [n / 256 % 256];
  }

  lemma TwoBytesRead(b: Bytes)
    requires |b| == 2
    ensures FromBigEndian(b) == 256 * (b[0] as nat) + b[1]
  {
    assert FromBigEndian(b[..1]) == FromBigEndian(b[..1][..0]) * 256 + b[..1][0];
  }
}
