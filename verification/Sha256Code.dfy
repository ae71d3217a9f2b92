/** The one-shot SHA-256 of benchmarks/runner/sha256.cpp: a block loop over the message, and a
    padded tail built in the same buffer. Each method is proved against a function of the standard:
    the schedule, one block, the whole blocks, and the tail in its two cases, where the rest of the
    message leaves room for the length or does not. The digest is the standard's for every message
    of fewer than 2^61 bytes, whose length in bits is below 2^64. */
module Sha256Code {
  import opened Sha256Standard
  import opened Bytes

  function HashOf(state: seq<Word>): Hash
    requires |state| == 8
  {
    Hash(state[0], state[1], state[2], state[3], state[4], state[5], state[6], state[7])
  }

  // ----- one block -----

  /** The first n words of w are those of the message schedule. */
  predicate Scheduled(w: seq<Word>, block: seq<byte>, n: nat)
    requires |block| == 64 && n <= |w|
  {
    forall t :: 0 <= t < n ==> w[t] == W(block, t)
  }

  lemma OneWordMore(w: seq<Word>, block: seq<byte>, n: nat, x: Word)
    requires |block| == 64 && n < |w| && Scheduled(w, block, n) && x == W(block, n)
    ensures Scheduled(w[n := x], block, n + 1)
  {
  }

  /** The code adds the four terms in the opposite order. */
  lemma NextWord(block: seq<byte>, t: nat, w16: Word, w15: Word, w7: Word, w2: Word)
    requires |block| == 64 && t >= 16
    requires w16 == W(block, t - 16) && w15 == W(block, t - 15) && w7 == W(block, t - 7) && w2 == W(block, t - 2)
    ensures AddFour(w16, SmallSigma0(w15), w7, SmallSigma1(w2)) == W(block, t)
  {
    SameSum(w16, SmallSigma0(w15), w7, SmallSigma1(w2));
  }

  method Schedule(block: array<byte>) returns (w: array<Word>)
    requires block.Length == 64
    ensures fresh(w) && w.Length == 64
    ensures Scheduled(w[..], block[..], 64)
  {
    w := new Word[64](i => Word(0));
    for i := 0 to 16
      invariant Scheduled(w[..], block[..], i)
    {
      ghost var was := w[..];
      w[i] := FourBytes(block[i * 4], block[i * 4 + 1], block[i * 4 + 2], block[i * 4 + 3]);
      assert w[..] == was[i := w[i]];
      OneWordMore(was, block[..], i, w[i]);
    }
    for i := 16 to 64
      invariant Scheduled(w[..], block[..], i)
    {
      ghost var was := w[..];
      assert was[i - 16] == w[i - 16] && was[i - 15] == w[i - 15] && was[i - 7] == w[i - 7] && was[i - 2] == w[i - 2];
      NextWord(block[..], i, w[i - 16], w[i - 15], w[i - 7], w[i - 2]);
      var s0 := Xor(Xor(Rotr(w[i - 15], 7), Rotr(w[i - 15], 18)), Shr(w[i - 15], 3));
      var s1 := Xor(Xor(Rotr(w[i - 2], 17), Rotr(w[i - 2], 19)), Shr(w[i - 2], 10));
      w[i] := AddFour(w[i - 16], s0, w[i - 7], s1);
      assert w[..] == was[i := w[i]];
      OneWordMore(was, block[..], i, w[i]);
    }
  }

  lemma SameSum(a: Word, b: Word, c: Word, d: Word)
    ensures AddFour(a, b, c, d) == AddFour(d, c, b, a)
  {
  }

  /** `sha256_transform`. */
  method Transform(state: array<Word>, block: array<byte>)
    requires state.Length == 8 && block.Length == 64
    modifies state
    ensures HashOf(state[..]) == Compress(HashOf(old(state[..])), old(block[..]))
  {
    var w := Schedule(block);
    var a, b, c, d := state[0], state[1], state[2], state[3];
    var e, f, g, h := state[4], state[5], state[6], state[7];
    for i := 0 to 64
      invariant Hash(a, b, c, d, e, f, g, h) == Turns(HashOf(state[..]), block[..], i)
    {
      assert w[..][i] == w[i];
      var s1 := Xor(Xor(Rotr(e, 6), Rotr(e, 11)), Rotr(e, 25));
      var ch := Xor(And(e, f), And(Not(e), g));
      var temp1 := Add(Add(Add(Add(h, s1), ch), KAt(i)), w[i]);
      var s0 := Xor(Xor(Rotr(a, 2), Rotr(a, 13)), Rotr(a, 22));
      var maj := Xor(Xor(And(a, b), And(a, c)), And(b, c));
      var temp2 := Add(s0, maj);
      h := g;
      g := f;
      f := e;
      e := Add(d, temp1);
      d := c;
      c := b;
      b := a;
      a := Add(temp1, temp2);
    }
    assert |K| == 64;
    AddTo(state, Hash(a, b, c, d, e, f, g, h));
  }

  method AddTo(state: array<Word>, v: Hash)
    requires state.Length == 8
    modifies state
    ensures HashOf(state[..]) == Plus(v, HashOf(old(state[..])))
  {
    PlusCommutes(v, HashOf(state[..]));
    state[0] := Add(state[0], v.a);
    state[1] := Add(state[1], v.b);
    state[2] := Add(state[2], v.c);
    state[3] := Add(state[3], v.d);
    state[4] := Add(state[4], v.e);
    state[5] := Add(state[5], v.f);
    state[6] := Add(state[6], v.g);
    state[7] := Add(state[7], v.h);
  }

  lemma AddCommutes(x: Word, y: Word)
    ensures Add(x, y) == Add(y, x)
  {
  }

  lemma PlusCommutes(v: Hash, h: Hash)
    ensures Plus(v, h) == Plus(h, v)
  {
    AddCommutes(v.a, h.a);
    AddCommutes(v.b, h.b);
    AddCommutes(v.c, h.c);
    AddCommutes(v.d, h.d);
    AddCommutes(v.e, h.e);
    AddCommutes(v.f, h.f);
    AddCommutes(v.g, h.g);
    AddCommutes(v.h, h.h);
  }

  // ----- the message -----

  /** `std::memcpy` to the start of the block. */
  method Copy(block: array<byte>, data: seq<byte>, offset: nat, n: nat)
    requires offset + n <= |data| && n <= block.Length
    modifies block
    ensures block[..] == data[offset..offset + n] + old(block[n..])
  {
    for i := 0 to n
      invariant block[..i] == data[offset..offset + i] && block[i..] == old(block[i..])
    {
      block[i] := data[offset + i];
    }
    assert block[..] == block[..n] + block[n..];
  }

  /** `std::memset` to zero. */
  method Clear(block: array<byte>, from: nat, n: nat)
    requires from + n <= block.Length
    modifies block
    ensures block[..] == old(block[..from]) + Zeros(n) + old(block[from + n..])
  {
    for i := 0 to n
      invariant block[..from] == old(block[..from]) && block[from + i..] == old(block[from + i..])
      invariant block[from..from + i] == Zeros(i)
    {
      block[from + i] := 0;
    }
    assert block[..] == block[..from] + block[from..from + n] + block[from + n..];
  }

  /** The length goes to the last eight bytes, the least significant one last. */
  method PutLength(block: array<byte>, bitLength: nat)
    requires block.Length == 64
    modifies block
    ensures block[..] == old(block[..56]) + BigEndian(bitLength, 8)
  {
    for i := 0 to 8
      invariant block[..56] == old(block[..56])
      invariant block[64 - i..] == BigEndian(bitLength, 8)[8 - i..]
    {
      block[63 - i] := Shifted(bitLength, i) % 256;
      assert block[63 - i..] == [block[63 - i]] + block[64 - i..];
    }
    assert block[..] == block[..56] + block[56..];
  }

  lemma OneBlockMore(blocks: seq<byte>, block: seq<byte>)
    requires |blocks| % 64 == 0 && |block| == 64
    ensures HashBlocks(blocks + block) == Compress(HashBlocks(blocks), block)
  {
    assert (blocks + block)[..|blocks|] == blocks && (blocks + block)[|blocks|..] == block;
  }

  method TransformNext(state: array<Word>, block: array<byte>, ghost blocks: seq<byte>)
    requires state.Length == 8 && block.Length == 64
    requires |blocks| % 64 == 0 && HashOf(state[..]) == HashBlocks(blocks)
    modifies state
    ensures HashOf(state[..]) == HashBlocks(blocks + block[..])
  {
    hide *;
    OneBlockMore(blocks, block[..]);
    Transform(state, block);
  }

  const TWO_TO_61: nat := 0x2000_0000_0000_0000
  const TWO_TO_64: nat := 0x1_0000_0000_0000_0000

  lemma ZeroBytesOf(whole: nat, rest: nat)
    requires whole % 64 == 0 && rest < 64
    ensures ZeroBytes(whole + rest) == if rest < 56 then 55 - rest else 119 - rest
  {
    assert (whole + rest) % 64 == rest;
  }

  lemma RegroupFive(a: seq<byte>, b: seq<byte>, c: seq<byte>, d: seq<byte>, e: seq<byte>)
    ensures a + b + (c + d + e) == a + (b + c + d + e)
  {
  }

  lemma RegroupSix(a: seq<byte>, b: seq<byte>, c: seq<byte>, d: seq<byte>, e: seq<byte>, f: seq<byte>)
    ensures a + b + (c + (d + e) + f) == a + (b + c + d) + (e + f)
  {
  }

  /** All blocks but the last, and what stands before the length in the last one. */
  function Blocks(whole: seq<byte>, rest: seq<byte>): (blocks: seq<byte>)
    requires |whole| % 64 == 0 && |rest| < 64
    ensures |blocks| % 64 == 0
  {
    if |rest| < 56 then whole else whole + (rest + [0x80] + Zeros(63 - |rest|))
  }

  function Front(rest: seq<byte>): (front: seq<byte>)
    requires |rest| < 64
    ensures |front| == 56
  {
    if |rest| < 56 then rest + [0x80] + Zeros(55 - |rest|) else Zeros(56)
  }

  /** The two cases of the tail together are the padding of the standard. */
  lemma TailIsPadding(whole: seq<byte>, rest: seq<byte>)
    requires |whole| % 64 == 0 && |rest| < 64
    ensures Pad(whole + rest) == Blocks(whole, rest) + (Front(rest) + BigEndian(8 * |whole + rest|, 8))
  {
    var length := BigEndian(8 * |whole + rest|, 8);
    ZeroBytesOf(|whole|, |rest|);
    if |rest| < 56 {
      RegroupFive(whole, rest, [0x80], Zeros(55 - |rest|), length);
    } else {
      assert Zeros(119 - |rest|) == Zeros(63 - |rest|) + Zeros(56);
      RegroupSix(whole, rest, [0x80], Zeros(63 - |rest|), Zeros(56), length);
    }
  }

  lemma NoBlocks()
    ensures HashBlocks([]) == INITIAL
  {
  }

  /** The blocks that lie whole in the message. */
  method WholeBlocks(state: array<Word>, block: array<byte>, data: seq<byte>) returns (offset: nat)
    requires state.Length == 8 && block.Length == 64 && HashOf(state[..]) == INITIAL
    modifies state, block
    ensures offset % 64 == 0 && offset <= |data| < offset + 64
    ensures HashOf(state[..]) == HashBlocks(data[..offset])
  {
    hide *;
    NoBlocks();
    assert data[..0] == [];
    offset := 0;
    while offset + 64 <= |data|
      invariant offset % 64 == 0 && offset <= |data|
      invariant HashOf(state[..]) == HashBlocks(data[..offset])
    {
      Copy(block, data, offset, 64);
      assert block[..] == data[offset..offset + 64];
      assert data[..offset] + data[offset..offset + 64] == data[..offset + 64];
      TransformNext(state, block, data[..offset]);
      offset := offset + 64;
    }
  }

  // The tail: the rest of the message, the 1 bit, zeros and the length.

  method CopyRest(block: array<byte>, data: seq<byte>, offset: nat)
    requires block.Length == 64 && offset <= |data| < offset + 64
    modifies block
    ensures block[..|data| - offset + 1] == data[offset..] + [0x80]
  {
    var remaining := |data| - offset;
    Copy(block, data, offset, remaining);
    block[remaining] := 0x80;
    assert block[..remaining] == data[offset..];
  }

  /** No room for the length: the zeros fill this block, and the next one starts with zeros. */
  method ExtraBlock(state: array<Word>, block: array<byte>, remaining: nat, ghost blocks: seq<byte>)
    requires state.Length == 8 && block.Length == 64 && remaining < 64
    requires |blocks| % 64 == 0 && HashOf(state[..]) == HashBlocks(blocks)
    modifies state, block
    ensures HashOf(state[..]) == HashBlocks(blocks + (old(block[..remaining + 1]) + Zeros(63 - remaining)))
    ensures block[..56] == Zeros(56)
  {
    Clear(block, remaining + 1, 64 - remaining - 1);
    assert block[..] == old(block[..remaining + 1]) + Zeros(63 - remaining);
    TransformNext(state, block, blocks);
    Clear(block, 0, 56);
  }

  method LengthBlock(state: array<Word>, block: array<byte>, bitLength: nat, ghost blocks: seq<byte>,
                     ghost front: seq<byte>)
    requires state.Length == 8 && block.Length == 64 && |front| == 56 && block[..56] == front
    requires |blocks| % 64 == 0 && HashOf(state[..]) == HashBlocks(blocks)
    modifies state, block
    ensures HashOf(state[..]) == HashBlocks(blocks + (front + BigEndian(bitLength, 8)))
  {
    PutLength(block, bitLength);
    TransformNext(state, block, blocks);
  }

  /** All of the tail but the length; an extra block is already hashed. */
  method BuildTail(state: array<Word>, block: array<byte>, data: seq<byte>, offset: nat,
                   ghost whole: seq<byte>, ghost rest: seq<byte>)
    requires state.Length == 8 && block.Length == 64
    requires offset == |whole| && |whole| % 64 == 0 && |rest| < 64
    requires |data| == offset + |rest| && data[offset..] == rest
    requires HashOf(state[..]) == HashBlocks(whole)
    modifies state, block
    ensures HashOf(state[..]) == HashBlocks(Blocks(whole, rest)) && block[..56] == Front(rest)
  {
    var remaining := |data| - offset;
    CopyRest(block, data, offset);
    if remaining >= 56 {
      ExtraBlock(state, block, remaining, whole);
    } else {
      Clear(block, remaining + 1, 56 - remaining - 1);
      assert block[..56] == rest + [0x80] + Zeros(55 - |rest|);
    }
  }

  method LastBlocks(state: array<Word>, block: array<byte>, data: seq<byte>, offset: nat)
    requires state.Length == 8 && block.Length == 64
    requires offset % 64 == 0 && offset <= |data| < offset + 64 && |data| < TWO_TO_61
    requires HashOf(state[..]) == HashBlocks(data[..offset])
    modifies state, block
    ensures HashOf(state[..]) == HashBlocks(Pad(data))
  {
    ghost var whole, rest := data[..offset], data[offset..];
    BuildTail(state, block, data, offset, whole, rest);
    LengthBlock(state, block, |data| * 8 % TWO_TO_64, Blocks(whole, rest), Front(rest));
    PaddedData(data, offset);
  }

  lemma PaddedData(data: seq<byte>, offset: nat)
    requires offset % 64 == 0 && offset <= |data| < offset + 64 && |data| < TWO_TO_61
    ensures Pad(data) == Blocks(data[..offset], data[offset..])
                         + (Front(data[offset..]) + BigEndian(|data| * 8 % TWO_TO_64, 8))
  {
    hide Pad, Blocks, Front, BigEndian;
    assert data == data[..offset] + data[offset..];
    TailIsPadding(data[..offset], data[offset..]);
    assert |data| * 8 % TWO_TO_64 == 8 * |data|;
  }

  method DigestOf(state: array<Word>) returns (digest: array<byte>)
    requires state.Length == 8
    ensures fresh(digest) && digest[..] == Digest(HashOf(state[..]))
  {
    digest := new byte[32](i => 0);
    for i := 0 to 8
      invariant digest[..4 * i] == WordsBytes(state[..i])
    {
      PutWord(digest, i, state[i]);
      assert state[..i + 1][..i] == state[..i];
    }
    assert digest[..] == digest[..32] && state[..] == state[..8];
    AllWords(state[..]);
  }

  lemma AllWords(state: seq<Word>)
    requires |state| == 8
    ensures WordsBytes(state) == Digest(HashOf(state))
  {
    var h := HashOf(state);
    assert state == [h.a, h.b, h.c, h.d, h.e, h.f, h.g, h.h];
  }

  method PutWord(digest: array<byte>, i: nat, w: Word)
    requires 4 * i + 4 <= digest.Length
    modifies digest
    ensures digest[..4 * (i + 1)] == old(digest[..4 * i]) + WordBytes(w)
  {
    digest[i * 4] := ByteOf(w, 24);
    digest[i * 4 + 1] := ByteOf(w, 16);
    digest[i * 4 + 2] := ByteOf(w, 8);
    digest[i * 4 + 3] := ByteOf(w, 0);
  }

  /** `sha256`: the digest of the standard, for every message of fewer than 2^61 bytes. */
  method ComputeSha256(data: seq<byte>) returns (digest: array<byte>)
    requires |data| < TWO_TO_61
    ensures fresh(digest) && digest[..] == Sha256(data)
  {
    var state := new Word[8](i => Word(0));
    state[0], state[1], state[2], state[3] := Word(0x6a09e667), Word(0xbb67ae85), Word(0x3c6ef372), Word(0xa54ff53a);
    state[4], state[5], state[6], state[7] := Word(0x510e527f), Word(0x9b05688c), Word(0x1f83d9ab), Word(0x5be0cd19);
    var block := new byte[64](i => 0);
    var offset := WholeBlocks(state, block, data);
    LastBlocks(state, block, data, offset);
    digest := DigestOf(state);
  }

  // ----- hexadecimal -----

  const HEX := "0123456789abcdef"

  function HexOf(digest: seq<byte>): (hex: string)
    ensures |hex| == 2 * |digest|
  {
    if digest == [] then ""
    else
      var b := digest[|digest| - 1];
      HexOf(digest[..|digest| - 1]) + [HEX[b / 16], HEX[b % 16]]
  }

  /** `sha256_hex`. */
  method Sha256Hex(digest: array<byte>) returns (hex: string)
    requires digest.Length == 32
    ensures hex == HexOf(digest[..])
  {
    var out := new char[64](i => '0');
    for i := 0 to digest.Length
      invariant out[..2 * i] == HexOf(digest[..i])
    {
      out[i * 2] := HEX[digest[i] / 16];
      out[i * 2 + 1] := HEX[digest[i] % 16];
      assert digest[..i + 1][..i] == digest[..i];
      assert out[..2 * (i + 1)] == out[..2 * i] + [out[2 * i], out[2 * i + 1]];
    }
    assert digest[..] == digest[..32];
    hex := out[..];
  }

  lemma HexDigitsDiffer(i: nat, j: nat)
    requires i < 16 && j < 16 && HEX[i] == HEX[j]
    ensures i == j
  {
  }

  /** Two digests with the same text are the same. */
  lemma {:induction false} HexIsInjective(d: seq<byte>, e: seq<byte>)
    requires HexOf(d) == HexOf(e)
    ensures d == e
  {
    assert |d| == |e|;
    if d != [] {
      var n := |d| - 1;
      var x: int, y: int := d[n], e[n];
      assert HexOf(d)[..2 * n] == HexOf(d[..n]) && HexOf(e)[..2 * n] == HexOf(e[..n]);
      assert HexOf(d)[2 * n] == HEX[x / 16] && HexOf(d)[2 * n + 1] == HEX[x % 16];
      HexIsInjective(d[..n], e[..n]);
      HexDigitsDiffer(x / 16, y / 16);
      HexDigitsDiffer(x % 16, y % 16);
      assert d == d[..n] + [d[n]] && e == e[..n] + [e[n]];
    }
  }
}
