/** Bytes and the little-endian fixed-width integers that `struct.pack("<...")` writes. */
module Bytes {

  type byte = x: int | 0 <= x < 256

  function Pow256(k: nat): (r: nat)
    ensures r > 0
  {
    if k == 0 then 1 else 256 * Pow256(k - 1)
  }

  /** n >> 8 * i. */
  function Shifted(n: nat, i: nat): nat {
    if i == 0 then n else Shifted(n / 256, i - 1)
  }

  /** The k bytes of n, least significant first. */
  function Le(n: nat, k: nat): (b: seq<byte>)
    ensures |b| == k
  {
    if k == 0 then [] else [n % 256] + Le(n / 256, k - 1)
  }

  function FromLe(b: seq<byte>): nat {
    if b == [] then 0 else b[0] + 256 * FromLe(b[1..])
  }

  lemma {:induction false} FromLeBelow(b: seq<byte>)
    ensures FromLe(b) < Pow256(|b|)
  {
    if b != [] {
      FromLeBelow(b[1..]);
    }
  }

  /** Packing then unpacking k bytes gives the number back, provided it fits. */
  lemma {:induction false} FromLeOfLe(n: nat, k: nat)
    requires n < Pow256(k)
    ensures FromLe(Le(n, k)) == n
  {
    if k > 0 {
      FromLeOfLe(n / 256, k - 1);
      assert Le(n, k)[1..] == Le(n / 256, k - 1);
    }
  }

  /** Unpacking then packing gives the bytes back. */
  lemma {:induction false} LeOfFromLe(b: seq<byte>)
    ensures Le(FromLe(b), |b|) == b
  {
    if b != [] {
      LeOfFromLe(b[1..]);
      assert b == [b[0]] + b[1..];
    }
  }

  lemma Pow256Four()
    ensures Pow256(4) == 0x1_0000_0000
  {
    assert Pow256(2) == 65536;
  }

  lemma Pow256Eight()
    ensures Pow256(8) == 0x1_0000_0000_0000_0000
  {
    Pow256Four();
    assert Pow256(6) == 65536 * Pow256(4);
  }

  /** `struct.unpack_from("<I", b, i)`. */
  function U32At(b: seq<byte>, i: nat): (n: nat)
    requires i + 4 <= |b|
    ensures n < 0x1_0000_0000
  {
    var b0: int, b1: int, b2: int, b3: int := b[i], b[i + 1], b[i + 2], b[i + 3];
    b0 + 256 * b1 + 65536 * b2 + 16777216 * b3
  }

  lemma U32AtIsFromLe(b: seq<byte>, i: nat)
    requires i + 4 <= |b|
    ensures U32At(b, i) == FromLe(b[i..i + 4])
  {
    var s := b[i..i + 4];
    var b2: int, b3: int := b[i + 2], b[i + 3];
    assert s[1..][1..][1..] == [b[i + 3]];
    assert FromLe(s[1..][1..][1..]) == b3;
    assert FromLe(s[1..][1..]) == b2 + 256 * b3;
  }
}
