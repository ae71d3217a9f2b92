/** SHA-256 as FIPS 180-4 defines it. The message is whole bytes. */
module Sha256Standard {
  import opened Bytes

  /** A 32-bit word. */
  datatype Word = Word(bits: bv32)

  // ----- section 3.2 and section 4.1.2: operations and functions -----

  function Add(x: Word, y: Word): Word {
    Word(x.bits + y.bits)
  }

  function AddFour(x: Word, y: Word, z: Word, w: Word): Word {
    Word(x.bits + y.bits + z.bits + w.bits)
  }

  function Xor(x: Word, y: Word): Word {
    Word(x.bits ^ y.bits)
  }

  function And(x: Word, y: Word): Word {
    Word(x.bits & y.bits)
  }

  function Not(x: Word): Word {
    Word(!x.bits)
  }

  function Shr(x: Word, n: nat): Word
    requires n < 32
  {
    Word(x.bits >> n)
  }

  function Rotr(x: Word, n: nat): Word
    requires 0 < n < 32
  {
    Word((x.bits >> n) | (x.bits << (32 - n)))
  }

  function Ch(x: Word, y: Word, z: Word): Word {
    Xor(And(x, y), And(Not(x), z))
  }

  function Maj(x: Word, y: Word, z: Word): Word {
    Xor(Xor(And(x, y), And(x, z)), And(y, z))
  }

  function BigSigma0(x: Word): Word {
    Xor(Xor(Rotr(x, 2), Rotr(x, 13)), Rotr(x, 22))
  }

  function BigSigma1(x: Word): Word {
    Xor(Xor(Rotr(x, 6), Rotr(x, 11)), Rotr(x, 25))
  }

  function SmallSigma0(x: Word): Word {
    Xor(Xor(Rotr(x, 7), Rotr(x, 18)), Shr(x, 3))
  }

  function SmallSigma1(x: Word): Word {
    Xor(Xor(Rotr(x, 17), Rotr(x, 19)), Shr(x, 10))
  }

  // ----- section 4.2.2 and section 5.3.3: constants -----

  const K: seq<bv32> :=
    [0x428a2f98, 0x71374491, 0xb5c0fbcf, 0xe9b5dba5, 0x3956c25b, 0x59f111f1, 0x923f82a4, 0xab1c5ed5] +
    [0xd807aa98, 0x12835b01, 0x243185be, 0x550c7dc3, 0x72be5d74, 0x80deb1fe, 0x9bdc06a7, 0xc19bf174] +
    [0xe49b69c1, 0xefbe4786, 0x0fc19dc6, 0x240ca1cc, 0x2de92c6f, 0x4a7484aa, 0x5cb0a9dc, 0x76f988da] +
    [0x983e5152, 0xa831c66d, 0xb00327c8, 0xbf597fc7, 0xc6e00bf3, 0xd5a79147, 0x06ca6351, 0x14292967] +
    [0x27b70a85, 0x2e1b2138, 0x4d2c6dfc, 0x53380d13, 0x650a7354, 0x766a0abb, 0x81c2c92e, 0x92722c85] +
    [0xa2bfe8a1, 0xa81a664b, 0xc24b8b70, 0xc76c51a3, 0xd192e819, 0xd6990624, 0xf40e3585, 0x106aa070] +
    [0x19a4c116, 0x1e376c08, 0x2748774c, 0x34b0bcb5, 0x391c0cb3, 0x4ed8aa4a, 0x5b9cca4f, 0x682e6ff3] +
    [0x748f82ee, 0x78a5636f, 0x84c87814, 0x8cc70208, 0x90befffa, 0xa4506ceb, 0xbef9a3f7, 0xc67178f2]

  function KAt(t: nat): Word {
    if t < |K| then Word(K[t]) else Word(0)
  }

  const INITIAL := Hash(
    Word(0x6a09e667), Word(0xbb67ae85), Word(0x3c6ef372), Word(0xa54ff53a),
    Word(0x510e527f), Word(0x9b05688c), Word(0x1f83d9ab), Word(0x5be0cd19))

  // ----- section 5.1.1: padding -----

  function Zeros(n: nat): (z: seq<byte>)
    ensures |z| == n && forall i :: 0 <= i < n ==> z[i] == 0
  {
    seq(n, i => 0)
  }

  /** How many whole zero bytes follow the byte that starts with the 1 bit. */
  function ZeroBytes(length: nat): nat {
    (119 - length % 64) % 64
  }

  /** n as k bytes, most significant first; what does not fit is cut off. */
  function BigEndian(n: nat, k: nat): (b: seq<byte>)
    ensures |b| == k && forall i :: 0 <= i < k ==> b[i] == Shifted(n, k - 1 - i) % 256
  {
    seq(k, i requires 0 <= i < k => Shifted(n, k - 1 - i) % 256)
  }

  function BigEndianValue(b: seq<byte>): nat {
    if b == [] then 0 else 256 * BigEndianValue(b[..|b| - 1]) + b[|b| - 1]
  }

  /** The number that the bytes express is n. */
  lemma {:induction false} BigEndianExpresses(n: nat, k: nat)
    requires n < Pow256(k)
    ensures BigEndianValue(BigEndian(n, k)) == n
  {
    if k > 0 {
      var b := BigEndian(n, k);
      assert b[..k - 1] == BigEndian(n / 256, k - 1);
      BigEndianExpresses(n / 256, k - 1);
    }
  }

  function Pad(message: seq<byte>): (padded: seq<byte>)
    ensures |padded| % 64 == 0
  {
    message + ([0x80] + Zeros(ZeroBytes(|message|)) + BigEndian(8 * |message|, 8))
  }

  lemma Residue(n: nat, q: nat)
    requires n == 512 * q + 448
    ensures n % 512 == 448
  {
  }

  /** In bits: l + 1 + k is 448 modulo 512, and k is the smallest such number. */
  lemma PaddingIsSmallest(length: nat)
    ensures (8 * length + 1 + (8 * ZeroBytes(length) + 7)) % 512 == 448
    ensures 8 * ZeroBytes(length) + 7 < 512
  {
    var q, r := length / 64, length % 64;
    assert length == 64 * q + r;
    if r <= 55 {
      assert ZeroBytes(length) == 55 - r;
      Residue(8 * length + 1 + (8 * ZeroBytes(length) + 7), q);
    } else {
      assert ZeroBytes(length) == 119 - r;
      Residue(8 * length + 1 + (8 * ZeroBytes(length) + 7), q + 1);
    }
  }

  // ----- section 5.2.1: parsing -----

  function FourBytes(b0: byte, b1: byte, b2: byte, b3: byte): Word {
    Word((b0 as bv32 << 24) | (b1 as bv32 << 16) | (b2 as bv32 << 8) | b3 as bv32)
  }

  function WordAt(block: seq<byte>, t: nat): Word
    requires |block| == 64 && t < 16
  {
    FourBytes(block[4 * t], block[4 * t + 1], block[4 * t + 2], block[4 * t + 3])
  }

  // ----- section 6.2.2: computation -----

  datatype Hash = Hash(a: Word, b: Word, c: Word, d: Word, e: Word, f: Word, g: Word, h: Word)

  /** Step 1: the message schedule. */
  function W(block: seq<byte>, t: nat): Word
    requires |block| == 64
  {
    if t < 16 then WordAt(block, t)
    else AddFour(SmallSigma1(W(block, t - 2)), W(block, t - 7), SmallSigma0(W(block, t - 15)), W(block, t - 16))
  }

  /** One turn of step 3. */
  function Turn(v: Hash, k: Word, w: Word): Hash {
    var t1 := Add(Add(Add(Add(v.h, BigSigma1(v.e)), Ch(v.e, v.f, v.g)), k), w);
    var t2 := Add(BigSigma0(v.a), Maj(v.a, v.b, v.c));
    Hash(Add(t1, t2), v.a, v.b, v.c, Add(v.d, t1), v.e, v.f, v.g)
  }

  /** Steps 2 and 3, the first t turns. */
  function Turns(v: Hash, block: seq<byte>, t: nat): Hash
    requires |block| == 64
  {
    if t == 0 then v else Turn(Turns(v, block, t - 1), KAt(t - 1), W(block, t - 1))
  }

  /** Step 4. */
  function Plus(v: Hash, h: Hash): Hash {
    Hash(Add(v.a, h.a), Add(v.b, h.b), Add(v.c, h.c), Add(v.d, h.d),
         Add(v.e, h.e), Add(v.f, h.f), Add(v.g, h.g), Add(v.h, h.h))
  }

  function Compress(h: Hash, block: seq<byte>): Hash
    requires |block| == 64
  {
    Plus(Turns(h, block, |K|), h)
  }

  /** All blocks, from the first to the last. */
  function HashBlocks(blocks: seq<byte>): Hash
    requires |blocks| % 64 == 0
  {
    if blocks == [] then INITIAL
    else
      var n := |blocks| - 64;
      Compress(HashBlocks(blocks[..n]), blocks[n..])
  }

  function ByteOf(w: Word, shift: nat): byte
    requires shift < 32
  {
    ((w.bits >> shift) & 0xff) as bv8 as byte
  }

  function WordBytes(w: Word): (b: seq<byte>)
    ensures |b| == 4
  {
    [ByteOf(w, 24), ByteOf(w, 16), ByteOf(w, 8), ByteOf(w, 0)]
  }

  function WordsBytes(words: seq<Word>): (b: seq<byte>)
    ensures |b| == 4 * |words|
  {
    if words == [] then [] else WordsBytes(words[..|words| - 1]) + WordBytes(words[|words| - 1])
  }

  function Digest(h: Hash): (b: seq<byte>)
    ensures |b| == 32
  {
    WordsBytes([h.a, h.b, h.c, h.d, h.e, h.f, h.g, h.h])
  }

  function Sha256(message: seq<byte>): (digest: seq<byte>)
    ensures |digest| == 32
  {
    Digest(HashBlocks(Pad(message)))
  }
}
