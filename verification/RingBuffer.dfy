/** `_Ring` of clients/python/modb_client.py as one object over the mapped bytes: what a call
    of `try_write`, `peek` or `pop` does when the other side is between calls. */
module RingBuffer {
  import opened Bytes
  import opened Frames
  import opened RingLayout
  import opened RingProtocol

  datatype WriteResult = Written | Full | TooLong

  datatype PeekResult = Nothing | View(bytes: seq<byte>) | CorruptRing

  const MARKER: seq<byte> := [255, 255, 255, 255]

  function Overwrite(mem: seq<byte>, off: nat, b: seq<byte>): (r: seq<byte>)
    requires off + |b| <= |mem|
    ensures |r| == |mem|
    ensures forall j :: 0 <= j < |mem| ==> r[j] == if off <= j < off + |b| then b[j - off] else mem[j]
  {
    mem[..off] + b + mem[off + |b|..]
  }

  lemma RestIsAligned(size: nat, off: nat)
    requires size % 8 == 0 && off % 8 == 0
    ensures (size - off) % 8 == 0
  {
  }

  lemma TotalIsAligned(size: nat, t: nat, f: seq<byte>)
    requires ValidSize(size) && t % 8 == 0
    ensures Off(size, t) + 8 <= size && (t + Total(size, t, f)) % 8 == 0
  {
    hide Off;
    OffAligned(size, t);
    RestIsAligned(size, Off(size, t));
    SumIsAligned(t, Need(f));
    SumIsAligned(t, ToEnd(size, t));
    SumIsAligned(t + ToEnd(size, t), Need(f));
  }

  function Verdict(size: nat, head: nat, tail: nat, f: seq<byte>): WriteResult
    requires size > 0
  {
    if Need(f) > size then TooLong
    else if tail + Total(size, tail, f) > head + size then Full
    else Written
  }

  /** From some position at or past tail, n bytes in a row are free: they meet neither the end of
      the ring nor a byte that is still live. */
  ghost predicate FreeInARow(size: nat, head: nat, tail: nat, n: nat)
    requires size > 0
  {
    exists p: nat :: tail <= p && Off(size, p) + n <= size && p + n <= head + size
  }

  lemma EndIsAhead(size: nat, t: nat)
    requires ValidSize(size) && t % 8 == 0
    ensures Off(size, t + ToEnd(size, t)) == 0 && ToEnd(size, t) >= 8
  {
    OffAligned(size, t);
    OffWraps(size, t);
  }

  /** Between aligned positions rounding a length up to a multiple of 8 makes no difference. */
  lemma AlignedFits(a: nat, n: nat, rounded: nat, b: nat)
    requires a % 8 == 0 && b % 8 == 0 && rounded % 8 == 0 && n <= rounded < n + 8
    ensures a + rounded <= b <==> a + n <= b
  {
    var x, m, y := a / 8, rounded / 8, b / 8;
    assert a == 8 * x && rounded == 8 * m && b == 8 * y;
    if a + n <= b {
      assert 8 * (x + m) < 8 * (y + 1);
    }
  }

  lemma RoundingFits(a: nat, f: seq<byte>, b: nat)
    requires a % 8 == 0 && b % 8 == 0
    ensures a + Need(f) <= b <==> a + |f| <= b
  {
    AlignedFits(a, |f|, Need(f), b);
  }

  /** Rounded or not, a frame fits behind each of the positions that count. */
  lemma EachFits(size: nat, head: nat, tail: nat, f: seq<byte>)
    requires ValidSize(size) && head % 8 == 0 && tail % 8 == 0
    ensures Need(f) <= size <==> |f| <= size
    ensures Off(size, tail) + Need(f) <= size <==> Off(size, tail) + |f| <= size
    ensures tail + Need(f) <= head + size <==> tail + |f| <= head + size
    ensures var end := tail + ToEnd(size, tail);
      end + Need(f) <= head + size <==> end + |f| <= head + size
  {
    hide Off, Need;
    OffAligned(size, tail);
    RestIsAligned(size, Off(size, tail));
    SumIsAligned(head, size);
    SumIsAligned(tail, ToEnd(size, tail));
    RoundingFits(0, f, size);
    RoundingFits(Off(size, tail), f, size);
    RoundingFits(tail, f, head + size);
    RoundingFits(tail + ToEnd(size, tail), f, head + size);
  }

  lemma FreeHasRoom(size: nat, head: nat, tail: nat, f: seq<byte>, p: nat)
    requires ValidSize(size) && head % 8 == 0 && tail % 8 == 0
    requires tail <= p && Off(size, p) + |f| <= size && p + |f| <= head + size
    ensures Verdict(size, head, tail, f) == Written
  {
    hide Off, Need;
    EachFits(size, head, tail, f);
    if p < tail + ToEnd(size, tail) {
      OffForward(size, tail, p - tail);
    }
  }

  lemma RoomIsFree(size: nat, head: nat, tail: nat, f: seq<byte>)
    requires ValidSize(size) && head % 8 == 0 && tail % 8 == 0
    requires Verdict(size, head, tail, f) == Written
    ensures FreeInARow(size, head, tail, |f|)
  {
    hide Off, Need;
    EachFits(size, head, tail, f);
    EndIsAhead(size, tail);
    var p := if Need(f) > ToEnd(size, tail) then tail + ToEnd(size, tail) else tail;
    assert Off(size, p) + |f| <= size && p + |f| <= head + size;
  }

  /** A frame is too long exactly when it is longer than the ring, and it goes in exactly when
      there are that many free bytes in a row. */
  lemma VerdictExactly(size: nat, head: nat, tail: nat, f: seq<byte>)
    requires ValidSize(size) && head % 8 == 0 && tail % 8 == 0
    ensures Verdict(size, head, tail, f) == TooLong <==> |f| > size
    ensures Verdict(size, head, tail, f) == Written <==> FreeInARow(size, head, tail, |f|)
  {
    hide Off, Need;
    EachFits(size, head, tail, f);
    if Verdict(size, head, tail, f) == Written {
      RoomIsFree(size, head, tail, f);
    }
    if FreeInARow(size, head, tail, |f|) {
      var p: nat :| tail <= p && Off(size, p) + |f| <= size && p + |f| <= head + size;
      FreeHasRoom(size, head, tail, f, p);
    }
  }

  /** The bytes after f went in at tail: marker and byte 0, or right where tail is. */
  function Put(mem: seq<byte>, tail: nat, f: seq<byte>): (r: seq<byte>)
    requires ValidSize(|mem|) && tail % 8 == 0 && Need(f) <= |mem|
    ensures |r| == |mem|
  {
    OffAligned(|mem|, tail);
    if Need(f) > ToEnd(|mem|, tail) then Overwrite(Overwrite(mem, Off(|mem|, tail), MARKER), 0, f)
    else Overwrite(mem, Off(|mem|, tail), f)
  }

  /** A block written less than a lap past head, at or past tail, touches nothing in between. */
  lemma OverwriteIsOutside(mem: seq<byte>, head: nat, tail: nat, p: nat, b: seq<byte>)
    requires |mem| > 0 && Off(|mem|, p) + |b| <= |mem|
    requires tail <= p && p + |b| <= head + |mem|
    ensures Agree(mem, Overwrite(mem, Off(|mem|, p), b), head, tail)
  {
    var off := Off(|mem|, p);
    forall q: nat | head <= q < tail ensures !(off <= Off(|mem|, q) < off + |b|) {
      var j := Off(|mem|, q);
      if off <= j < off + |b| {
        OffForward(|mem|, p, j - off);
        OffApart(|mem|, q, p + (j - off));
      }
    }
  }

  lemma Mark(mem: seq<byte>, head: nat, tail: nat, contents: seq<seq<byte>>)
    requires SharedInv(mem, head, tail, contents) && tail + 4 <= head + |mem|
    ensures Off(|mem|, tail) + 4 <= |mem|
    ensures var marked := Overwrite(mem, Off(|mem|, tail), MARKER);
      SharedInv(marked, head, tail, contents) && IsMarker(marked, Off(|mem|, tail))
  {
    var off := Off(|mem|, tail);
    OffAligned(|mem|, tail);
    OverwriteIsOutside(mem, head, tail, tail, MARKER);
    var marked := Overwrite(mem, off, MARKER);
    LayoutFrame(mem, marked, head, tail, contents);
    assert marked[off] == 255 && marked[off + 1] == 255 && marked[off + 2] == 255 && marked[off + 3] == 255;
  }

  lemma WriteAt(mem: seq<byte>, mem': seq<byte>, head: nat, tail: nat, tail': nat, start: nat,
                contents: seq<seq<byte>>, f: seq<byte>)
    requires SharedInv(mem, head, tail, contents) && Fits(mem, f)
    requires StartOfWrite(mem, tail, start)
    requires Off(|mem|, start) + Need(f) <= |mem| && start + Need(f) <= head + |mem|
    requires mem' == Overwrite(mem, Off(|mem|, start), f) && tail' == start + Need(f)
    ensures SharedInv(mem', head, tail', contents + [f])
  {
    CopiedIn(mem, mem', head, tail, start, contents, f);
    Publish(mem', head, tail, tail', contents, f, start);
  }

  lemma CopiedIn(mem: seq<byte>, mem': seq<byte>, head: nat, tail: nat, start: nat,
                 contents: seq<seq<byte>>, f: seq<byte>)
    requires SharedInv(mem, head, tail, contents) && Fits(mem, f)
    requires StartOfWrite(mem, tail, start)
    requires Off(|mem|, start) + Need(f) <= |mem| && start + Need(f) <= head + |mem|
    requires mem' == Overwrite(mem, Off(|mem|, start), f)
    ensures SharedInv(mem', head, tail, contents) && CopyingInv(mem', head, tail, f, start, |f|)
  {
    var off := Off(|mem|, start);
    OverwriteIsOutside(mem, head, tail, start, f);
    LayoutFrame(mem, mem', head, tail, contents);
    if start != tail {
      OverwriteIsOutside(mem, tail, tail + 4, start, f);
      StartFrame(mem, mem', tail);
    }
    assert StartOfWrite(mem', tail, start);
    assert mem'[off..off + |f|] == f == f[..|f|];
  }

  /** Whenever there is room, the write appends exactly that frame to what a reader sees. */
  lemma WriteAppends(mem: seq<byte>, mem': seq<byte>, head: nat, tail: nat, tail': nat,
                     contents: seq<seq<byte>>, f: seq<byte>)
    requires SharedInv(mem, head, tail, contents) && WellFormed(f)
    requires Verdict(|mem|, head, tail, f) == Written
    requires mem' == Put(mem, tail, f) && tail' == tail + Total(|mem|, tail, f)
    ensures SharedInv(mem', head, tail', contents + [f])
  {
    hide Layout, Off, IsMarker;
    var start := tail;
    var marked := mem;
    if Need(f) > ToEnd(|mem|, tail) {
      EndIsAhead(|mem|, tail);
      start := tail + ToEnd(|mem|, tail);
      marked := Overwrite(mem, Off(|mem|, tail), MARKER);
      Mark(mem, head, tail, contents);
    }
    WriteAt(marked, mem', head, tail, tail', start, contents, f);
  }

  ghost predicate FrameAt(mem: seq<byte>, h: nat, tail: nat, f: seq<byte>)
    requires |mem| > 0
  {
    var off := Off(|mem|, h);
    && 4 <= |f| && off + |f| <= |mem| && U32At(mem, off) == |f| - 4 && mem[off..off + |f|] == f
    && 5 <= |f| <= 4 + MAX_FRAME_BYTES && h + Need(f) <= tail
  }

  lemma RoundedFits(h: nat, n: nat, t: nat)
    requires h % 8 == 0 && t % 8 == 0
    ensures h + Rounded(n) <= t <==> h + n <= t
  {
    AlignedFits(h, n, Rounded(n), t);
  }

  /** The length field at h is that of a frame that lies whole before t and the end of the ring. */
  ghost predicate Announced(mem: seq<byte>, h: nat, t: nat)
    requires |mem| > 0
  {
    var off := Off(|mem|, h);
    && off + 4 <= |mem|
    && 1 <= U32At(mem, off) <= 16777216
    && off + 4 + U32At(mem, off) <= |mem|
    && h + 4 + U32At(mem, off) <= t
  }

  function AnnouncedFrame(mem: seq<byte>, h: nat): seq<byte>
    requires |mem| > 0 && Off(|mem|, h) + 4 <= |mem|
    requires Off(|mem|, h) + 4 + U32At(mem, Off(|mem|, h)) <= |mem|
  {
    mem[Off(|mem|, h)..Off(|mem|, h) + 4 + U32At(mem, Off(|mem|, h))]
  }

  /** What `peek` finds: nothing, or past at most one marker a frame that passes its checks. */
  lemma PeekSees(mem: seq<byte>, head: nat, tail: nat, contents: seq<seq<byte>>)
    requires SharedInv(mem, head, tail, contents)
    ensures contents == [] <==> head == tail
    ensures contents != [] ==>
      var h := Start(mem, head);
      && FrameAt(mem, h, tail, contents[0])
      && Start(mem, h) == h && h % 8 == 0 && SharedInv(mem, h, tail, contents)
    ensures Off(|mem|, head) + 4 <= |mem|
  {
    OffAligned(|mem|, head);
    LayoutBounds(mem, head, tail, contents);
    if contents != [] {
      SkipMarker(mem, head, tail, contents);
      HeldFrameIsNoMarker(mem, Off(|mem|, Start(mem, head)), contents[0]);
    }
  }

  lemma EmptyExactly(mem: seq<byte>, head: nat, tail: nat, contents: seq<seq<byte>>)
    requires SharedInv(mem, head, tail, contents)
    ensures contents == [] <==> head == tail
  {
    LayoutBounds(mem, head, tail, contents);
  }

  /** Behind the marker the same frames lie, and no second marker. */
  lemma BehindMarker(mem: seq<byte>, h: nat, tail: nat, contents: seq<seq<byte>>)
    requires SharedInv(mem, h, tail, contents) && h != tail && IsMarker(mem, Off(|mem|, h))
    ensures var next := h + (|mem| - Off(|mem|, h));
      && next == Start(mem, h) && next % 8 == 0 && next < tail && SharedInv(mem, next, tail, contents)
      && !IsMarker(mem, Off(|mem|, next))
  {
    hide Layout, Off, U32At;
    PeekSees(mem, h, tail, contents);
    EmptyExactly(mem, h, tail, contents);
    StartIsAligned(mem, h);
  }

  /** Where no marker stands, the first frame is the one that the length field announces. */
  lemma FrameIsSeen(mem: seq<byte>, h: nat, tail: nat, contents: seq<seq<byte>>)
    requires SharedInv(mem, h, tail, contents) && h != tail && !IsMarker(mem, Off(|mem|, h))
    ensures contents != [] && Start(mem, h) == h && Announced(mem, h, tail)
    ensures AnnouncedFrame(mem, h) == contents[0]
    ensures Rounded(4 + U32At(mem, Off(|mem|, h))) == Need(contents[0])
  {
    hide Layout, Off, U32At;
    PeekSees(mem, h, tail, contents);
    EmptyExactly(mem, h, tail, contents);
  }

  /** The four conditions of the code say that no such frame is announced. */
  lemma ChecksExactly(mem: seq<byte>, h: nat, t: nat)
    requires ValidSize(|mem|) && h % 8 == 0 && t % 8 == 0 && Off(|mem|, h) + 4 <= |mem|
    ensures var off, n := Off(|mem|, h), 4 + U32At(mem, Off(|mem|, h));
      && (n == 4 || n > 4 + MAX_FRAME_BYTES || n > |mem| - off || h + Rounded(n) > t <==> !Announced(mem, h, t))
      && (Announced(mem, h, t) ==> off + n <= |mem| && AnnouncedFrame(mem, h) == mem[off..off + n])
  {
    hide Off, U32At;
    RoundedFits(h, 4 + U32At(mem, Off(|mem|, h)), t);
  }

  /** `pop` after `peek` removes exactly the frame that was looked at. */
  lemma PopRemovesTheFirst(mem: seq<byte>, head: nat, tail: nat, contents: seq<seq<byte>>)
    requires SharedInv(mem, head, tail, contents) && contents != [] && Start(mem, head) == head
    ensures SharedInv(mem, head + Need(contents[0]), tail, contents[1..])
  {
    Take(mem, head, tail, contents);
  }

  class Ring {
    const mem: array<byte>
    var head: nat
    var tail: nat
    var pending: nat

    ghost predicate Valid()
      reads this
    {
      ValidSize(mem.Length) && head % 8 == 0 && tail % 8 == 0
    }

    /** A view of the oldest frame has been handed out and not yet given back. */
    ghost predicate Peeked(contents: seq<seq<byte>>)
      reads this, mem
    {
      && SharedInv(mem[..], head, tail, contents) && contents != []
      && Start(mem[..], head) == head && pending == Need(contents[0])
    }

    constructor (mem: array<byte>, position: nat)
      requires ValidSize(mem.Length) && position % 8 == 0
      ensures Valid() && this.mem == mem
      ensures head == tail == position && pending == 0
    {
      this.mem := mem;
      head, tail, pending := position, position, 0;
    }

    /** The slice assignment `mm[data + off:data + off + len(b)] = b`. */
    method Store(off: nat, b: seq<byte>)
      requires off + |b| <= mem.Length
      modifies mem
      ensures mem[..] == Overwrite(old(mem[..]), off, b)
    {
      forall i | 0 <= i < |b| {
        mem[off + i] := b[i];
      }
    }

    /** The ring between its positions is a queue: what is written goes behind the contents. */
    method TryWrite(frame: seq<byte>, ghost contents: seq<seq<byte>>) returns (r: WriteResult)
      requires Valid()
      modifies this`tail, mem
      ensures Valid()
      ensures r == Verdict(mem.Length, head, old(tail), frame)
      ensures r == TooLong <==> |frame| > mem.Length
      ensures r == Written <==> FreeInARow(mem.Length, head, old(tail), |frame|)
      ensures tail == if r.Written? then old(tail) + Total(mem.Length, old(tail), frame) else old(tail)
      ensures mem[..] == if r.Written? then Put(old(mem[..]), old(tail), frame) else old(mem[..])
      ensures WellFormed(frame) && old(SharedInv(mem[..], head, tail, contents)) ==>
        SharedInv(mem[..], head, tail, if r.Written? then contents + [frame] else contents)
    {
      hide FreeInARow, SharedInv, Overwrite, Off;
      var size := mem.Length;
      var need := Need(frame);
      VerdictExactly(size, head, tail, frame);
      if need > size {
        return TooLong;
      }
      var t := tail;
      var off := Off(size, t);
      var toEnd := size - off;
      var total := if need > toEnd then toEnd + need else need;
      if t + total > head + size {
        return Full;
      }
      assert total == Total(size, tail, frame) && Verdict(size, head, tail, frame) == Written;
      TotalIsAligned(size, t, frame);
      if need > toEnd {
        Store(off, MARKER);
        t := t + toEnd;
        off := 0;
      }
      Store(off, frame);
      tail := t + need;
      if WellFormed(frame) && old(SharedInv(mem[..], head, tail, contents)) {
        WriteAppends(old(mem[..]), mem[..], head, old(tail), tail, contents, frame);
      }
      return Written;
    }

    /** contents are the frames between head and tail: without them the loop over markers need
        not even end. Where no marker stands at head, the answer is fixed for any bytes at all. */
    method Peek(ghost contents: seq<seq<byte>>) returns (r: PeekResult)
      requires Valid()
      requires SharedInv(mem[..], head, tail, contents) || !IsMarker(mem[..], Off(mem.Length, head))
      modifies this`head, this`pending
      ensures Valid()
      ensures old(SharedInv(mem[..], head, tail, contents)) ==>
        && SharedInv(mem[..], head, tail, contents)
        && (contents == [] ==> r == Nothing && head == old(head) && pending == old(pending))
        && (contents != [] ==> r == View(contents[0]) && Peeked(contents) && head == Start(mem[..], old(head)))
      ensures !IsMarker(mem[..], Off(mem.Length, old(head))) ==>
        && head == old(head)
        && (r == Nothing <==> head == tail)
        && (r == CorruptRing <==> head != tail && !Announced(mem[..], head, tail))
        && (r.View? ==> Announced(mem[..], head, tail) && r.bytes == AnnouncedFrame(mem[..], head))
    {
      hide SharedInv, Layout, Off, U32At, Start, Announced, AnnouncedFrame;
      ghost var sound := SharedInv(mem[..], head, tail, contents);
      if sound {
        EmptyExactly(mem[..], head, tail, contents);
      }
      var h, t := head, tail;
      ghost var h1 := Start(mem[..], head);
      while h != t
        invariant h == head && h % 8 == 0 && pending == old(pending)
        invariant sound ==> SharedInv(mem[..], h, t, contents)
        invariant h == old(head) || (sound && h == h1 && h != t && !IsMarker(mem[..], Off(mem.Length, h)))
        invariant h == old(head) || IsMarker(mem[..], Off(mem.Length, old(head)))
        decreases h == old(head)
      {
        OffAligned(mem.Length, h);
        var off := Off(mem.Length, h);
        var length := U32At(mem[..], off);
        if length == PADDING {
          BehindMarker(mem[..], h, t, contents);
          h := h + (mem.Length - off);
          head := h;
          continue;
        }
        var n := 4 + length;
        ChecksExactly(mem[..], h, t);
        if sound {
          FrameIsSeen(mem[..], h, t, contents);
        }
        if length == 0 || length > MAX_FRAME_BYTES || n > mem.Length - off || h + Rounded(n) > t {
          return CorruptRing;
        }
        pending := Rounded(n);
        return View(mem[off..off + n]);
      }
      return Nothing;
    }

    /** After a peek it takes out the frame that was handed out; once is enough: with nothing
        pending it changes nothing. */
    method Pop(ghost contents: seq<seq<byte>>)
      requires Valid() && pending % 8 == 0
      modifies this`head, this`pending
      ensures Valid() && head == old(head) + old(pending) && pending == 0
      ensures old(Peeked(contents)) ==> SharedInv(mem[..], head, tail, contents[1..])
      ensures old(pending) == 0 && old(SharedInv(mem[..], head, tail, contents)) ==>
        SharedInv(mem[..], head, tail, contents)
    {
      hide Layout, Off, Start;
      SumIsAligned(head, pending);
      if Peeked(contents) {
        PopRemovesTheFirst(mem[..], head, tail, contents);
      }
      head := head + pending;
      pending := 0;
    }
  }
}
