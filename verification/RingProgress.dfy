/** Which frames an empty ring accepts (clients/python/modb_client.py). */
module RingProgress {
  // `try_write` rejects a frame outright only when it is longer than the ring (lines 272-273), but
  // a frame also has to fit on one side of the wrap: above (size + 8) / 2 some positions refuse it
  // for ever.

  import opened Bytes
  import opened Frames
  import opened RingLayout
  import opened RingProtocol
  import opened RingBuffer

  /** The exact bound: an empty ring takes the frame at every aligned position just when
      twice its rounded length is at most the ring size plus 8. */
  lemma EmptyRingAcceptsExactly(size: nat, f: seq<byte>)
    requires ValidSize(size) && Need(f) <= size
    ensures (forall p: nat :: p % 8 == 0 ==> Total(size, p, f) <= size) <==> 2 * Need(f) <= size + 8
  {
    if 2 * Need(f) <= size + 8 {
      forall p: nat | p % 8 == 0 ensures Total(size, p, f) <= size {
        OffAligned(size, p);
      }
    } else {
      var p := RefusingOffset(size, f);
      assert p % 8 == 0 && Total(size, p, f) > size;
    }
  }

  /** The first offset that refuses f, right after the stretch f needs before the end. */
  function RefusingOffset(size: nat, f: seq<byte>): (o: nat)
    requires ValidSize(size) && Need(f) <= size && 2 * Need(f) > size + 8
    ensures o % 8 == 0 && o < size && Total(size, o, f) > size
  {
    assert Need(f) >= 16;
    assert Off(size, size - Need(f) + 8) == size - Need(f) + 8;
    size - Need(f) + 8
  }

  lemma {:induction false} RunInParts(s: State, a: seq<Action>, b: seq<Action>)
    requires |s.mem| > 0
    ensures Run(s, a + b) == Run(Run(s, a), b)
    decreases |a|
  {
    if a == [] {
      assert a + b == b;
    } else {
      assert (a + b)[0] == a[0] && (a + b)[1..] == a[1..] + b;
      RunInParts(Step(s, a[0]), a[1..], b);
    }
  }

  /** Some schedule takes s to s'. */
  ghost predicate Reaches(s: State, s': State)
    requires |s.mem| > 0
  {
    exists actions :: OffersFrames(actions) && Run(s, actions) == s'
  }

  lemma ReachesItself(s: State)
    requires |s.mem| > 0
    ensures Reaches(s, s)
  {
    assert OffersFrames([]) && Run(s, []) == s;
  }

  lemma ReachesThrough(s: State, s1: State, s2: State)
    requires |s.mem| > 0 && |s1.mem| > 0 && Reaches(s, s1) && Reaches(s1, s2)
    ensures Reaches(s, s2)
  {
    var a :| OffersFrames(a) && Run(s, a) == s1;
    var b :| OffersFrames(b) && Run(s1, b) == s2;
    RunInParts(s, a, b);
    assert OffersFrames(a + b) && Run(s, a + b) == s2;
  }

  lemma ReachesNext(s: State, a: Action)
    requires |s.mem| > 0 && (a.Offer? ==> WellFormed(a.frame))
    ensures Reaches(s, Step(s, a))
  {
    var actions := [a];
    assert actions[1..] == [];
    assert OffersFrames(actions) && Run(s, actions) == Step(s, a);
  }

  lemma ReachableIsInv(s: State, s': State)
    requires Inv(s) && Reaches(s, s')
    ensures Inv(s')
  {
    var a :| OffersFrames(a) && Run(s, a) == s';
    RunKeepsInv(s, a);
  }

  // ----- one side on its own -----

  function Repeat(a: Action, n: nat): (actions: seq<Action>)
    ensures |actions| == n && forall i :: 0 <= i < n ==> actions[i] == a
  {
    seq(n, i => a)
  }

  /** n steps of one side, and none of the other, take s to s'. */
  ghost predicate Alone(a: Action, n: nat, s: State, s': State)
    requires |s.mem| > 0
  {
    Run(s, Repeat(a, n)) == s'
  }

  lemma AloneItself(a: Action, s: State)
    requires |s.mem| > 0
    ensures Alone(a, 0, s, s)
  {
    assert Repeat(a, 0) == [];
  }

  lemma AloneOnce(a: Action, s: State)
    requires |s.mem| > 0
    ensures Alone(a, 1, s, Step(s, a))
  {
    assert Repeat(a, 1)[1..] == [];
  }

  lemma AloneThrough(a: Action, m: nat, n: nat, s: State, s1: State, s2: State)
    requires |s.mem| > 0 && |s1.mem| > 0 && Alone(a, m, s, s1) && Alone(a, n, s1, s2)
    ensures Alone(a, m + n, s, s2)
  {
    assert Repeat(a, m + n) == Repeat(a, m) + Repeat(a, n);
    RunInParts(s, Repeat(a, m), Repeat(a, n));
  }

  lemma AloneReaches(a: Action, n: nat, s: State, s': State)
    requires |s.mem| > 0 && !a.Offer? && Alone(a, n, s, s')
    ensures Reaches(s, s')
  {
    assert OffersFrames(Repeat(a, n)) && Run(s, Repeat(a, n)) == s';
  }

  // ----- the producer on its own -----

  lemma Store(s: State, mem': seq<byte>, p: Producer)
    requires |s.mem| > 0
    requires Produced(s.mem, s.head, s.tail, s.producer) == Stored(mem', s.tail, p, [])
    ensures Alone(Produce, 1, s, s.(mem := mem', producer := p))
  {
    hide Produced, Alone;
    AloneOnce(Produce, s);
    assert s.published + [] == s.published;
  }

  lemma OneByteOfBlock(mem: seq<byte>, off: nat, b: seq<byte>, k: nat)
    requires off + |b| <= |mem| && k < |b|
    ensures Overwrite(mem[off + k := b[k]], off + k + 1, b[k + 1..]) == Overwrite(mem, off + k, b[k..])
  {
  }

  lemma NothingToWrite(mem: seq<byte>, off: nat, b: seq<byte>)
    requires off + |b| <= |mem|
    ensures Overwrite(mem, off + |b|, b[|b|..]) == mem
  {
  }

  /** The rest of a frame is copied, byte by byte, and then published. */
  lemma {:induction false} CopyAlone(s: State, f: seq<byte>, start: nat, k: nat)
    requires |s.mem| > 0 && s.producer == Copying(f, start, k) && k <= |f|
    requires Off(|s.mem|, start) + |f| <= |s.mem|
    ensures Alone(Produce, |f| - k + 1, s,
                  s.(mem := Overwrite(s.mem, Off(|s.mem|, start) + k, f[k..]), tail := start + Need(f),
                     producer := Idle, published := s.published + [f]))
    decreases |f| - k
  {
    hide Overwrite, Alone, Off;
    var off := Off(|s.mem|, start);
    if k < |f| {
      var mem1 := s.mem[off + k := f[k]];
      var s1 := s.(mem := mem1, producer := Copying(f, start, k + 1));
      var s2 := s1.(mem := Overwrite(mem1, off + k + 1, f[k + 1..]), tail := start + Need(f),
                    producer := Idle, published := s.published + [f]);
      Store(s, mem1, s1.producer);
      CopyAlone(s1, f, start, k + 1);
      OneByteOfBlock(s.mem, off, f, k);
      AloneThrough(Produce, 1, |f| - k, s, s1, s2);
    } else {
      NothingToWrite(s.mem, off, f);
      AloneOnce(Produce, s);
    }
  }

  lemma MarkerStep(mem: seq<byte>, head: nat, tail: nat, f: seq<byte>, t: nat, k: nat)
    requires |mem| > 0 && k <= 4 && Off(|mem|, t) + 4 <= |mem|
    ensures Produced(mem, head, tail, Padding(f, t, k))
         == if k < 4 then Stored(mem[Off(|mem|, t) + k := 255], tail, Padding(f, t, k + 1), [])
            else Stored(mem, tail, Copying(f, t + ToEnd(|mem|, t), 0), [])
  {
    hide Off, ToEnd;
  }

  /** The rest of the marker is written; then the frame's own copy starts, at byte 0. */
  lemma {:induction false} PadAlone(s: State, f: seq<byte>, t: nat, k: nat)
    requires |s.mem| > 0 && s.producer == Padding(f, t, k) && k <= 4 && Off(|s.mem|, t) + 4 <= |s.mem|
    ensures Alone(Produce, 5 - k, s, s.(mem := Overwrite(s.mem, Off(|s.mem|, t) + k, MARKER[k..]),
                                        producer := Copying(f, t + ToEnd(|s.mem|, t), 0)))
    decreases 4 - k
  {
    hide Overwrite, Alone, Off, ToEnd, Produced;
    var off, next := Off(|s.mem|, t), Copying(f, t + ToEnd(|s.mem|, t), 0);
    MarkerStep(s.mem, s.head, s.tail, f, t, k);
    if k < 4 {
      var mem1 := s.mem[off + k := 255];
      var s1 := s.(mem := mem1, producer := Padding(f, t, k + 1));
      var s2 := s1.(mem := Overwrite(mem1, off + k + 1, MARKER[k + 1..]), producer := next);
      Store(s, mem1, s1.producer);
      PadAlone(s1, f, t, k + 1);
      OneByteOfBlock(s.mem, off, MARKER, k);
      AloneThrough(Produce, 1, 4 - k, s, s1, s2);
    } else {
      NothingToWrite(s.mem, off, MARKER);
      Store(s, s.mem, next);
    }
  }

  /** Past the size check the producer reads both positions and decides: three steps. */
  lemma EnterAlone(s: State, f: seq<byte>)
    requires |s.mem| > 0 && s.producer == Entered(f)
    ensures Alone(Produce, 3, s, s.(producer := Decision(|s.mem|, f, s.head, s.tail)))
  {
    hide Alone, Decision;
    var s2 := s.(producer := ReadHead(f, s.head));
    var s3 := s.(producer := ReadTail(f, s.head, s.tail));
    var s4 := s.(producer := Decision(|s.mem|, f, s.head, s.tail));
    Store(s, s.mem, s2.producer);
    Store(s2, s.mem, s3.producer);
    Store(s3, s.mem, s4.producer);
    AloneThrough(Produce, 1, 1, s, s2, s3);
    AloneThrough(Produce, 2, 1, s, s3, s4);
  }

  /** The steps from the decision to write to the end of the call. */
  function StoreSteps(size: nat, t: nat, f: seq<byte>): nat
    requires size > 0
  {
    |f| + 1 + if Need(f) > ToEnd(size, t) then 5 else 0
  }

  /** The frame that fits is written and published. */
  lemma FrameGoesIn(s: State, f: seq<byte>)
    requires ValidSize(|s.mem|) && s.tail % 8 == 0 && Need(f) <= |s.mem|
    requires s.producer == if Need(f) > ToEnd(|s.mem|, s.tail) then Padding(f, s.tail, 0) else Copying(f, s.tail, 0)
    ensures Alone(Produce, StoreSteps(|s.mem|, s.tail, f), s,
                  s.(mem := Put(s.mem, s.tail, f), tail := s.tail + Total(|s.mem|, s.tail, f), producer := Idle,
                     published := s.published + [f]))
  {
    hide Overwrite, Alone, Off;
    var t := s.tail;
    OffAligned(|s.mem|, t);
    assert f[0..] == f;
    if Need(f) > ToEnd(|s.mem|, t) {
      var start := t + ToEnd(|s.mem|, t);
      EndIsAhead(|s.mem|, t);
      assert MARKER[0..] == MARKER;
      var s1 := s.(mem := Overwrite(s.mem, Off(|s.mem|, t), MARKER), producer := Copying(f, start, 0));
      PadAlone(s, f, t, 0);
      CopyAlone(s1, f, start, 0);
      AloneThrough(Produce, 5, |f| + 1, s, s1,
                   s.(mem := Put(s.mem, t, f), tail := t + Total(|s.mem|, t, f), producer := Idle,
                      published := s.published + [f]));
    } else {
      CopyAlone(s, f, t, 0);
    }
  }

  /** A frame that Total says fits is published when the producer runs undisturbed. */
  lemma WriteAlone(s: State, f: seq<byte>)
    requires ValidSize(|s.mem|) && s.tail % 8 == 0 && s.producer == Entered(f) && Need(f) <= |s.mem|
    requires s.tail + Total(|s.mem|, s.tail, f) <= s.head + |s.mem|
    ensures Alone(Produce, 3 + StoreSteps(|s.mem|, s.tail, f), s,
                  s.(mem := Put(s.mem, s.tail, f), tail := s.tail + Total(|s.mem|, s.tail, f), producer := Idle,
                     published := s.published + [f]))
  {
    hide Alone, Put, Off;
    var s1 := s.(producer := Decision(|s.mem|, f, s.head, s.tail));
    EnterAlone(s, f);
    FrameGoesIn(s1, f);
    AloneThrough(Produce, 3, StoreSteps(|s.mem|, s.tail, f), s, s1,
                 s.(mem := Put(s.mem, s.tail, f), tail := s.tail + Total(|s.mem|, s.tail, f), producer := Idle,
                    published := s.published + [f]));
  }

  // ----- the consumer on its own -----

  lemma Look(s: State, c: Consumer)
    requires |s.mem| > 0 && !s.consumer.GotHead?
    requires Consumed(s.mem, s.head, s.tail, s.consumer) == Taken(s.head, c, [])
    ensures Alone(Consume, 1, s, s.(consumer := c))
  {
    hide Consumed, Alone;
    AloneOnce(Consume, s);
    assert s.popped + [] == s.popped;
  }

  /** The first k bytes at offset off. */
  function FirstBytes(mem: seq<byte>, off: nat, k: nat): seq<byte>
    requires off + k <= |mem|
  {
    mem[off..off + k]
  }

  lemma OneMore(mem: seq<byte>, off: nat, k: nat)
    requires off + k < |mem|
    ensures FirstBytes(mem, off, k + 1) == FirstBytes(mem, off, k) + [mem[off + k]]
  {
  }

  /** The frame at head, read byte by byte from the k-th on. */
  lemma {:induction false} ViewAlone(s: State, off: nat, n: nat, k: nat)
    requires |s.mem| > 0 && off == Off(|s.mem|, s.head) && off + n <= |s.mem| && k <= n
    requires s.consumer == Viewing(n, FirstBytes(s.mem, off, k))
    ensures Alone(Consume, n - k + 1, s, s.(head := s.head + Rounded(n), consumer := Waiting,
                                            popped := s.popped + [FirstBytes(s.mem, off, n)]))
    decreases n - k
  {
    hide Alone, Off;
    if k < n {
      var s1 := s.(consumer := Viewing(n, FirstBytes(s.mem, off, k + 1)));
      OneMore(s.mem, off, k);
      Look(s, s1.consumer);
      ViewAlone(s1, off, n, k + 1);
      AloneThrough(Consume, 1, n - k, s, s1, s.(head := s.head + Rounded(n), consumer := Waiting,
                                                popped := s.popped + [FirstBytes(s.mem, off, n)]));
    } else {
      AloneOnce(Consume, s);
    }
  }

  lemma {:induction false} LengthAlone(s: State, off: nat, k: nat)
    requires |s.mem| > 0 && off == Off(|s.mem|, s.head) && off + 4 <= |s.mem| && k <= 4
    requires s.consumer == Length(s.head, s.tail, FirstBytes(s.mem, off, k))
    ensures Alone(Consume, 4 - k, s, s.(consumer := Length(s.head, s.tail, FirstBytes(s.mem, off, 4))))
    decreases 4 - k
  {
    hide Alone, Off;
    if k < 4 {
      var s1 := s.(consumer := Length(s.head, s.tail, FirstBytes(s.mem, off, k + 1)));
      OneMore(s.mem, off, k);
      Look(s, s1.consumer);
      LengthAlone(s1, off, k + 1);
      AloneThrough(Consume, 1, 3 - k, s, s1, s.(consumer := Length(s.head, s.tail, FirstBytes(s.mem, off, 4))));
    } else {
      AloneItself(Consume, s);
    }
  }

  lemma HeaderPasses(mem: seq<byte>, h: nat, t: nat, f: seq<byte>)
    requires ValidSize(|mem|) && h % 8 == 0 && WellFormed(f) && Holds(mem, Off(|mem|, h), f) && h + Need(f) <= t
    ensures var off := Off(|mem|, h); var got := FirstBytes(mem, off, 4);
      && U32At(got, 0) != PADDING && FirstBytes(mem, off, |f|) == f
      && Checked(|mem|, h, t, got) == Viewing(|f|, got)
  {
    var off := Off(|mem|, h);
    var got := FirstBytes(mem, off, 4);
    HeldFrameIsNoMarker(mem, off, f);
    U32AtIsFromLe(mem, off);
    U32AtIsFromLe(got, 0);
    assert got[0..4] == got;
  }

  /** The consumer reads both positions: two steps. */
  lemma PositionsAlone(s: State)
    requires |s.mem| > 0 && s.consumer.Waiting?
    ensures Alone(Consume, 2, s, s.(consumer := Looping(s.head, s.tail), seen := |s.published|))
  {
    hide Alone;
    var s1 := s.(consumer := GotHead(s.head));
    var s2 := s.(consumer := Looping(s.head, s.tail), seen := |s.published|);
    Look(s, s1.consumer);
    AloneOnce(Consume, s1);
    assert Step(s1, Consume) == s2 by { assert s.popped + [] == s.popped; }
    AloneThrough(Consume, 1, 1, s, s1, s2);
  }

  lemma LookAlone(s: State, off: nat)
    requires |s.mem| > 0 && s.consumer.Waiting? && s.head != s.tail
    requires off == Off(|s.mem|, s.head) && off + 4 <= |s.mem|
    ensures Alone(Consume, 7, s,
                  s.(consumer := Length(s.head, s.tail, FirstBytes(s.mem, off, 4)), seen := |s.published|))
  {
    hide Alone, Off;
    var s2 := s.(consumer := Looping(s.head, s.tail), seen := |s.published|);
    var s3 := s2.(consumer := Length(s.head, s.tail, FirstBytes(s.mem, off, 0)));
    var s4 := s2.(consumer := Length(s.head, s.tail, FirstBytes(s.mem, off, 4)));
    assert FirstBytes(s.mem, off, 0) == [];
    PositionsAlone(s);
    Look(s2, s3.consumer);
    AloneThrough(Consume, 2, 1, s, s2, s3);
    LengthAlone(s3, off, 0);
    AloneThrough(Consume, 3, 4, s, s3, s4);
  }

  /** The consumer that has read the length of the frame at head takes that frame. */
  lemma TakeAlone(s: State, f: seq<byte>)
    requires ValidSize(|s.mem|) && s.head % 8 == 0
    requires WellFormed(f) && Holds(s.mem, Off(|s.mem|, s.head), f) && s.head + Need(f) <= s.tail
    requires s.consumer == Length(s.head, s.tail, FirstBytes(s.mem, Off(|s.mem|, s.head), 4))
    ensures Alone(Consume, |f| - 2, s, s.(head := s.head + Need(f), consumer := Waiting, popped := s.popped + [f]))
  {
    hide Alone, Off, U32At;
    var off, n := Off(|s.mem|, s.head), |f|;
    var got := FirstBytes(s.mem, off, 4);
    HeaderPasses(s.mem, s.head, s.tail, f);
    var s2 := s.(consumer := Viewing(n, got));
    Look(s, s2.consumer);
    ViewAlone(s2, off, n, 4);
    AloneThrough(Consume, 1, n - 3, s, s2, s.(head := s.head + Need(f), consumer := Waiting, popped := s.popped + [f]));
  }

  /** The frame at head is taken when the consumer runs undisturbed. */
  lemma ReadAlone(s: State, f: seq<byte>)
    requires ValidSize(|s.mem|) && s.head % 8 == 0 && s.consumer.Waiting?
    requires WellFormed(f) && Holds(s.mem, Off(|s.mem|, s.head), f) && s.head + Need(f) <= s.tail
    ensures Alone(Consume, |f| + 5, s,
                  s.(head := s.head + Need(f), popped := s.popped + [f], seen := |s.published|))
  {
    hide Alone, Off;
    var got := FirstBytes(s.mem, Off(|s.mem|, s.head), 4);
    var s1 := s.(consumer := Length(s.head, s.tail, got), seen := |s.published|);
    LookAlone(s, Off(|s.mem|, s.head));
    TakeAlone(s1, f);
    AloneThrough(Consume, 7, |f| - 2, s, s1,
                 s.(head := s.head + Need(f), popped := s.popped + [f], seen := |s.published|));
  }

  // ----- reaching an offset -----

  /** The shortest frame: a type and no payload. It takes 8 bytes of the ring. */
  function Tiny(): (f: seq<byte>)
    ensures WellFormed(f) && Need(f) == 8
  {
    FrameIsWellFormed(0, []);
    Frame(0, [])
  }

  ghost predicate Empty(s: State) {
    Inv(s) && s.head == s.tail && s.producer.Idle? && s.consumer.Waiting?
  }

  lemma EmptyHoldsNothing(s: State)
    requires Empty(s)
    ensures Live(s) == []
  {
    if Live(s) != [] {
      LayoutBounds(s.mem, s.head, s.tail, Live(s));
    }
  }

  /** Sending and receiving the shortest frame moves an empty ring on by 8. */
  lemma MoveByOne(s: State) returns (s': State)
    requires Empty(s)
    ensures Reaches(s, s') && Empty(s') && s'.tail == s.tail + 8 && |s'.mem| == |s.mem|
  {
    hide Layout, Alone, Reaches, Put, Off, Holds, ConsumerInv, OffersFrames;
    var f := Tiny();
    OffAligned(|s.mem|, s.tail);
    EmptyHoldsNothing(s);
    assert Total(|s.mem|, s.tail, f) == 8;
    var s0 := s.(producer := Entered(f));
    var s1 := s.(mem := Put(s.mem, s.tail, f), tail := s.tail + 8, published := s.published + [f]);
    s' := s1.(head := s1.tail, popped := s1.popped + [f], seen := |s1.published|);
    ReachesNext(s, Offer(f));
    WriteAlone(s0, f);
    AloneReaches(Produce, 3 + StoreSteps(|s.mem|, s.tail, f), s0, s1);
    ReachesThrough(s, s0, s1);
    ReachableIsInv(s, s1);
    TinyIsAtHead(s1, f);
    ReadAlone(s1, f);
    AloneReaches(Consume, |f| + 5, s1, s');
    ReachesThrough(s, s1, s');
    ReachableIsInv(s, s');
  }

  lemma TinyIsAtHead(s: State, f: seq<byte>)
    requires Inv(s) && Live(s) == [f] && s.tail < s.head + 16 && Need(f) == 8
    ensures Holds(s.mem, Off(|s.mem|, s.head), f) && s.head + Need(f) <= s.tail
  {
    assert Placed(s.mem, s.head, f);
    StartIsAligned(s.mem, s.head);
  }

  lemma {:induction false} MoveBy(s: State, n: nat) returns (s': State)
    requires Empty(s)
    ensures Reaches(s, s') && Empty(s') && s'.tail == s.tail + 8 * n && |s'.mem| == |s.mem|
    decreases n
  {
    if n == 0 {
      s' := s;
      ReachesItself(s);
    } else {
      var s1 := MoveByOne(s);
      s' := MoveBy(s1, n - 1);
      ReachesThrough(s, s1, s');
    }
  }

  lemma Eighth(d: nat) returns (n: nat)
    requires d % 8 == 0
    ensures d == 8 * n
  {
    n := d / 8;
  }

  /** From any aligned position an aligned offset lies a multiple of 8 ahead. */
  lemma DistanceTo(size: nat, p: nat, o: nat) returns (n: nat)
    requires ValidSize(size) && p % 8 == 0 && o % 8 == 0 && o < size
    ensures Off(size, p + 8 * n) == o
  {
    hide Off;
    OffAligned(size, p);
    var off := Off(size, p);
    if off <= o {
      n := Eighth(o - off);
      OffForward(size, p, 8 * n);
    } else {
      var p' := p + (size - off);
      n := Eighth(size - off + o);
      OffWraps(size, p);
      OffForward(size, p', o);
      assert p' + o == p + 8 * n;
    }
  }

  // ----- refused for ever -----

  ghost predicate OffersOnly(actions: seq<Action>, f: seq<byte>) {
    forall a :: a in actions && a.Offer? ==> a.frame == f
  }

  /** Both sides are somewhere in a call that cannot get further than its own check. */
  ghost predicate Stuck(s: State, f: seq<byte>, p: nat) {
    && s.head == s.tail == p
    && s.producer in {Idle, Entered(f), ReadHead(f, p), ReadTail(f, p, p)}
    && s.consumer in {Waiting, GotHead(p), Looping(p, p)}
  }

  lemma {:induction false} StuckForEver(s: State, f: seq<byte>, p: nat, actions: seq<Action>)
    requires |s.mem| > 0 && Stuck(s, f, p) && Total(|s.mem|, p, f) > |s.mem| && OffersOnly(actions, f)
    ensures Stuck(Run(s, actions), f, p) && Run(s, actions).published == s.published
    decreases |actions|
  {
    if actions != [] {
      assert actions[0] in actions;
      var s' := Step(s, actions[0]);
      assert s.published + [] == s.published && s.popped + [] == s.popped;
      assert Stuck(s', f, p) && s'.published == s.published;
      StuckForEver(s', f, p, actions[1..]);
    }
  }

  /** Every frame above the bound meets its position: whatever the start, some schedule empties
      the ring there, and from then on the frame is refused in every continuation that offers
      nothing else, although it is no longer than the ring. */
  lemma AboveTheBoundSomeOffsetRefusesForEver(mem: seq<byte>, p: nat, f: seq<byte>) returns (s: State)
    requires ValidSize(|mem|) && p % 8 == 0
    requires Fits(mem, f) && 2 * Need(f) > |mem| + 8
    ensures Reaches(Init(mem, p), s) && Empty(s) && |s.mem| == |mem|
    ensures |f| <= |s.mem| && Step(s, Offer(f)).producer == Entered(f)
    ensures forall actions :: OffersOnly(actions, f) ==> Run(s, actions).published == s.published
  {
    InitInv(mem, p);
    var o := RefusingOffset(|mem|, f);
    var n := DistanceTo(|mem|, p, o);
    s := MoveBy(Init(mem, p), n);
    assert Off(|mem|, s.tail) == o && Off(|mem|, o) == o;
    forall actions | OffersOnly(actions, f)
      ensures Run(s, actions).published == s.published
    {
      StuckForEver(s, f, s.tail, actions);
    }
  }

  /** …and up to the bound no position refuses it: wherever an empty ring stands, the producer
      alone publishes the frame, in a number of steps known beforehand. */
  lemma UpToTheBoundEveryOffsetAccepts(s: State, f: seq<byte>)
    requires Empty(s) && Fits(s.mem, f) && 2 * Need(f) <= |s.mem| + 8
    ensures var n := 3 + StoreSteps(|s.mem|, s.tail, f);
      Run(s, [Offer(f)] + Repeat(Produce, n)).published == s.published + [f]
  {
    EmptyRingAcceptsExactly(|s.mem|, f);
    var s0 := s.(producer := Entered(f));
    WriteAlone(s0, f);
    OfferFirst(s, f, 3 + StoreSteps(|s.mem|, s.tail, f));
  }

  lemma OfferFirst(s: State, f: seq<byte>, n: nat)
    requires |s.mem| > 0
    ensures Run(s, [Offer(f)] + Repeat(Produce, n)) == Run(Step(s, Offer(f)), Repeat(Produce, n))
  {
    var actions := [Offer(f)] + Repeat(Produce, n);
    assert actions[0] == Offer(f) && actions[1..] == Repeat(Produce, n);
  }
}
