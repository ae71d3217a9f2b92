/** How the shared-memory ring of clients/python/modb_client.py lays frames out: positions only
    grow, position p lives at byte p % size, a frame never wraps, and a marker at the end of the
    ring sends the reader back to byte 0. Layout says that a reader between two positions finds
    exactly the given frames; it depends only on the bytes between them. */
module RingLayout {
  import opened Arithmetic
  import opened Bytes
  import opened Frames

  const PADDING: nat := 0xFFFF_FFFF

  ghost predicate ValidSize(size: nat) {
    size > 0 && size % 8 == 0
  }

  /** The length rounded up to a multiple of 8: `(len(frame) + 7) & ~7`. */
  function Need(f: seq<byte>): (n: nat)
    ensures n % 8 == 0 && |f| <= n < |f| + 8
  {
    (|f| + 7) / 8 * 8
  }

  /** The byte where position p lives: `p % size` (OffIsRemainder). */
  function Off(size: nat, p: nat): (o: nat)
    requires size > 0
    ensures o < size
  {
    Rem(size, p)
  }

  /** The remainder, one lap at a time. */
  function Rem(size: nat, p: nat): (o: nat)
    requires size > 0
    ensures o < size
  {
    if p < size then p else Rem(size, p - size)
  }

  lemma {:induction false} OffIsRemainder(size: nat, p: nat)
    requires size > 0
    ensures Off(size, p) == p % size
  {
    var q := Laps(size, p);
    var r := Off(size, p);
    MultipleIsFar(size, p / size - q);
    assert size * (p / size - q) == r - p % size;
  }

  /** Off is the remainder of a division: p is so many laps plus Off. */
  lemma {:induction false} Laps(size: nat, p: nat) returns (q: nat)
    requires size > 0
    ensures p == size * q + Off(size, p)
  {
    if p < size {
      q := 0;
    } else {
      var q' := Laps(size, p - size);
      q := q' + 1;
      assert size * q == size * q' + size;
    }
  }

  /** Moving forward inside the ring without crossing its end. */
  lemma {:induction false} OffForward(size: nat, p: nat, i: nat)
    requires size > 0 && Off(size, p) + i < size
    ensures Off(size, p + i) == Off(size, p) + i
  {
    if p >= size {
      OffForward(size, p - size, i);
    }
  }

  /** Jumping to the end of the ring lands on byte 0. */
  lemma {:induction false} OffWraps(size: nat, p: nat)
    requires size > 0
    ensures Off(size, p + (size - Off(size, p))) == 0
  {
    if p < size {
      assert Rem(size, size) == Rem(size, 0);
    } else {
      OffWraps(size, p - size);
      assert p + (size - Off(size, p)) - size == p - size + (size - Off(size, p - size));
    }
  }

  /** Positions less than one lap apart live at different bytes. */
  lemma {:induction false} OffApart(size: nat, p: nat, q: nat)
    requires size > 0 && p < q < p + size
    ensures Off(size, p) != Off(size, q)
  {
    if p >= size {
      OffApart(size, p - size, q - size);
    } else if q >= size {
      assert Off(size, q) == Rem(size, q - size) == q - size;
    }
  }

  /** Aligned positions live at aligned bytes, so at least 8 bytes follow before the end. */
  lemma {:induction false} OffAligned(size: nat, p: nat)
    requires ValidSize(size) && p % 8 == 0
    ensures Off(size, p) % 8 == 0 && Off(size, p) + 8 <= size
  {
    if p >= size {
      OffAligned(size, p - size);
    }
  }

  predicate IsMarker(mem: seq<byte>, off: nat) {
    off + 4 <= |mem| && U32At(mem, off) == PADDING
  }

  /** Frame f occupies the bytes from off on, unbroken. */
  ghost predicate Holds(mem: seq<byte>, off: nat, f: seq<byte>) {
    off + Need(f) <= |mem| && mem[off..off + |f|] == f
  }

  /** Where the next frame starts for a reader at p: past the marker, if there is one. */
  function Start(mem: seq<byte>, p: nat): (s: nat)
    requires |mem| > 0
    ensures s >= p
  {
    var off := Off(|mem|, p);
    if IsMarker(mem, off) then p + (|mem| - off) else p
  }

  /** The frame f is in place for a reader that arrives at p. */
  ghost predicate Placed(mem: seq<byte>, p: nat, f: seq<byte>)
    requires |mem| > 0
  {
    WellFormed(f) && Holds(mem, Off(|mem|, Start(mem, p)), f)
  }

  /** The position after the frame f, for a reader that arrives at p. */
  function Next(mem: seq<byte>, p: nat, f: seq<byte>): (n: nat)
    requires |mem| > 0
    ensures n >= p
  {
    Start(mem, p) + Need(f)
  }

  /** Reading from head to tail yields exactly the frames fs, in order. */
  ghost predicate Layout(mem: seq<byte>, head: nat, tail: nat, fs: seq<seq<byte>>)
    requires |mem| > 0
    decreases |fs|
  {
    if fs == [] then
      head == tail
    else
      && Placed(mem, head, fs[0])
      && Next(mem, head, fs[0]) <= tail
      && Layout(mem, Next(mem, head, fs[0]), tail, fs[1..])
  }

  lemma HeldFrameIsNoMarker(mem: seq<byte>, off: nat, f: seq<byte>)
    requires Holds(mem, off, f) && WellFormed(f)
    ensures !IsMarker(mem, off)
    ensures off + 4 <= |mem| && U32At(mem, off) == |f| - 4
  {
    assert f[..4] == mem[off..off + 4];
    U32AtIsFromLe(mem, off);
    U32AtIsFromLe(f, 0);
  }

  lemma StartIsAligned(mem: seq<byte>, p: nat)
    requires ValidSize(|mem|) && p % 8 == 0
    ensures Start(mem, p) % 8 == 0
    ensures Start(mem, p) == p || (Off(|mem|, Start(mem, p)) == 0 && Start(mem, p) >= p + 8)
  {
    OffAligned(|mem|, p);
    OffWraps(|mem|, p);
  }

  lemma PlacedFacts(mem: seq<byte>, p: nat, f: seq<byte>)
    requires ValidSize(|mem|) && p % 8 == 0 && Placed(mem, p, f)
    ensures Next(mem, p, f) % 8 == 0 && Next(mem, p, f) > p + 4
    ensures Start(mem, Start(mem, p)) == Start(mem, p)
  {
    StartIsAligned(mem, p);
    HeldFrameIsNoMarker(mem, Off(|mem|, Start(mem, p)), f);
    SumIsAligned(Start(mem, p), Need(f));
  }

  lemma SumIsAligned(a: nat, b: nat)
    requires a % 8 == 0 && b % 8 == 0
    ensures (a + b) % 8 == 0
  {
  }

  /** After the jump over a marker the same frames remain, and no marker is left at the front. */
  lemma SkipMarker(mem: seq<byte>, head: nat, tail: nat, fs: seq<seq<byte>>)
    requires ValidSize(|mem|) && head % 8 == 0
    requires Layout(mem, head, tail, fs) && fs != []
    ensures Start(mem, head) % 8 == 0 && Start(mem, head) < tail
    ensures Start(mem, Start(mem, head)) == Start(mem, head)
    ensures Layout(mem, Start(mem, head), tail, fs)
  {
    StartIsAligned(mem, head);
    PlacedFacts(mem, head, fs[0]);
  }

  lemma LayoutBounds(mem: seq<byte>, head: nat, tail: nat, fs: seq<seq<byte>>)
    requires ValidSize(|mem|) && head % 8 == 0 && Layout(mem, head, tail, fs)
    ensures head <= tail
    ensures fs != [] ==> head < tail
  {
    if fs != [] {
      PlacedFacts(mem, head, fs[0]);
    }
  }

  /** Two memories agree on the bytes at positions from a up to b. */
  ghost predicate Agree(mem: seq<byte>, mem': seq<byte>, a: nat, b: nat)
    requires |mem| > 0
  {
    && |mem'| == |mem|
    && forall p: nat :: a <= p < b ==> mem'[Off(|mem|, p)] == mem[Off(|mem|, p)]
  }

  lemma SameBytes(mem: seq<byte>, mem': seq<byte>, p: nat, n: nat)
    requires |mem| > 0 && Off(|mem|, p) + n <= |mem|
    requires Agree(mem, mem', p, p + n)
    ensures mem'[Off(|mem|, p)..Off(|mem|, p) + n] == mem[Off(|mem|, p)..Off(|mem|, p) + n]
  {
    var off := Off(|mem|, p);
    forall j {:trigger mem[j]} | off <= j < off + n ensures mem'[j] == mem[j] {
      var i := j - off;
      OffForward(|mem|, p, i);
      assert mem'[Off(|mem|, p + i)] == mem[Off(|mem|, p + i)];
    }
  }

  lemma StartFrame(mem: seq<byte>, mem': seq<byte>, p: nat)
    requires ValidSize(|mem|) && p % 8 == 0 && Agree(mem, mem', p, p + 4)
    ensures Start(mem', p) == Start(mem, p)
  {
    OffAligned(|mem|, p);
    SameBytes(mem, mem', p, 4);
    var off := Off(|mem|, p);
    U32AtIsFromLe(mem, off);
    U32AtIsFromLe(mem', off);
  }

  lemma PlacedFrame(mem: seq<byte>, mem': seq<byte>, p: nat, f: seq<byte>)
    requires ValidSize(|mem|) && p % 8 == 0 && Placed(mem, p, f)
    requires Agree(mem, mem', p, Next(mem, p, f))
    ensures Placed(mem', p, f) && Start(mem', p) == Start(mem, p)
  {
    PlacedFacts(mem, p, f);
    StartFrame(mem, mem', p);
    SameBytes(mem, mem', Start(mem, p), |f|);
  }

  /** Only the bytes at positions from head to tail matter. */
  lemma {:induction false} LayoutFrame(mem: seq<byte>, mem': seq<byte>, head: nat, tail: nat, fs: seq<seq<byte>>)
    requires ValidSize(|mem|) && head % 8 == 0
    requires Layout(mem, head, tail, fs) && Agree(mem, mem', head, tail)
    ensures Layout(mem', head, tail, fs)
    decreases |fs|
  {
    if fs != [] {
      PlacedFacts(mem, head, fs[0]);
      var next := Next(mem, head, fs[0]);
      assert Agree(mem, mem', head, next) && Agree(mem, mem', next, tail);
      PlacedFrame(mem, mem', head, fs[0]);
      assert Next(mem', head, fs[0]) == next;
      LayoutFrame(mem, mem', next, tail, fs[1..]);
    }
  }

  /** Publishing a frame that is in place at tail appends it to what a reader sees. */
  lemma {:induction false} LayoutAppend(mem: seq<byte>, head: nat, tail: nat, fs: seq<seq<byte>>, f: seq<byte>)
    requires ValidSize(|mem|) && head % 8 == 0
    requires Layout(mem, head, tail, fs) && Placed(mem, tail, f)
    ensures Layout(mem, head, Next(mem, tail, f), fs + [f])
    decreases |fs|
  {
    if fs == [] {
      assert (fs + [f])[1..] == [];
    } else {
      PlacedFacts(mem, head, fs[0]);
      LayoutAppend(mem, Next(mem, head, fs[0]), tail, fs[1..], f);
      assert (fs + [f])[1..] == fs[1..] + [f];
      LayoutBounds(mem, head, tail, fs);
    }
  }
}
