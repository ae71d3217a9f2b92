/** The calls of RingBuffer are runs of the micro-steps of RingProtocol: what `try_write`, or
    `peek` with `pop`, does as a whole is where its side ends up when it alone takes steps. */
module RingRefinement {
  import opened Bytes
  import opened Frames
  import opened RingLayout
  import opened RingProtocol
  import opened RingBuffer
  import opened RingProgress

  // ----- the producer -----

  /** What `try_write` leaves behind: the frame published, or nothing changed. */
  function AfterWrite(s: State, f: seq<byte>): State
    requires ValidSize(|s.mem|) && s.tail % 8 == 0
  {
    if Verdict(|s.mem|, s.head, s.tail, f) == Written then
      s.(mem := Put(s.mem, s.tail, f), tail := s.tail + Total(|s.mem|, s.tail, f), published := s.published + [f])
    else s
  }

  /** The producer steps in a call: none past the size check, the two loads and the decision, or
      all the stores behind them. */
  function WriteSteps(s: State, f: seq<byte>): nat
    requires |s.mem| > 0
  {
    match Verdict(|s.mem|, s.head, s.tail, f)
    case TooLong => 0
    case Full => 3
    case Written => 3 + StoreSteps(|s.mem|, s.tail, f)
  }

  lemma NotWrittenIsIdle(size: nat, head: nat, tail: nat, f: seq<byte>)
    requires ValidSize(size) && tail % 8 == 0 && Verdict(size, head, tail, f) != Written
    ensures Need(f) <= size ==> Decision(size, f, head, tail) == Idle
  {
  }

  /** `try_write` is the offer of the frame and so many steps of the producer, with no step of
      the consumer: it then rests again, and the frame is in the ring or nothing has changed. */
  lemma WriteIsItsSteps(s: State, f: seq<byte>)
    requires ValidSize(|s.mem|) && s.tail % 8 == 0 && s.producer.Idle?
    ensures Run(s, [Offer(f)] + Repeat(Produce, WriteSteps(s, f))) == AfterWrite(s, f)
  {
    hide Put, Off, Decision;
    OfferFirst(s, f, WriteSteps(s, f));
    match Verdict(|s.mem|, s.head, s.tail, f)
    case TooLong =>
      AloneItself(Produce, s);
    case Full =>
      NotWrittenIsIdle(|s.mem|, s.head, s.tail, f);
      EnterAlone(s.(producer := Entered(f)), f);
    case Written =>
      WriteAlone(s.(producer := Entered(f)), f);
  }

  /** `try_write` raises exactly when the frame is longer than the ring. */
  lemma RaisesExactly(s: State, f: seq<byte>)
    requires ValidSize(|s.mem|) && s.tail % 8 == 0 && s.producer.Idle?
    ensures Step(s, Offer(f)) == s <==> |f| > |s.mem|
  {
    RoundingFits(0, f, |s.mem|);
  }

  /** The producer that is turned away keeps its copies of the positions, and decides the same. */
  lemma {:induction false} TurnedAway(s: State, f: seq<byte>, n: nat)
    requires |s.mem| > 0 && (s.producer.Idle? || Decision(|s.mem|, f, s.head, s.tail) == Idle)
    requires s.producer in {Idle, Entered(f), ReadHead(f, s.head), ReadTail(f, s.head, s.tail)}
    ensures Run(s, Repeat(Produce, n)).published == s.published
    decreases n
  {
    hide Decision;
    if n == 0 {
      assert Repeat(Produce, 0) == [];
    } else {
      assert Repeat(Produce, n)[1..] == Repeat(Produce, n - 1);
      assert s.published + [] == s.published;
      TurnedAway(Step(s, Produce), f, n - 1);
    }
  }

  /** With no step of the consumer, the producer publishes something sooner or later exactly when
      there are enough free bytes in a row. */
  lemma PublishedExactly(s: State, f: seq<byte>)
    requires ValidSize(|s.mem|) && s.head % 8 == 0 && s.tail % 8 == 0 && s.producer.Idle?
    ensures (exists n: nat :: Run(s, [Offer(f)] + Repeat(Produce, n)).published != s.published)
       <==> FreeInARow(|s.mem|, s.head, s.tail, |f|)
  {
    hide Run, FreeInARow, Repeat, Decision;
    VerdictExactly(|s.mem|, s.head, s.tail, f);
    if FreeInARow(|s.mem|, s.head, s.tail, |f|) {
      WriteIsItsSteps(s, f);
      assert Run(s, [Offer(f)] + Repeat(Produce, WriteSteps(s, f))).published == s.published + [f];
    } else {
      forall n: nat ensures Run(s, [Offer(f)] + Repeat(Produce, n)).published == s.published {
        OfferFirst(s, f, n);
        NotWrittenIsIdle(|s.mem|, s.head, s.tail, f);
        TurnedAway(Step(s, Offer(f)), f, n);
      }
    }
  }

  /** An empty ring that stands at byte 0 takes every frame that is no longer than itself. */
  lemma EmptyRingAtByteZeroTakesAll(s: State, f: seq<byte>)
    requires Empty(s) && Off(|s.mem|, s.tail) == 0 && |f| <= |s.mem|
    ensures Run(s, [Offer(f)] + Repeat(Produce, WriteSteps(s, f))).published == s.published + [f]
  {
    hide Off, Run, Repeat, Layout;
    assert FreeInARow(|s.mem|, s.head, s.tail, |f|);
    VerdictExactly(|s.mem|, s.head, s.tail, f);
    WriteIsItsSteps(s, f);
  }

  // ----- the consumer -----

  /** `peek` on an empty ring is three steps that change nothing. */
  lemma EmptyReadIsItsSteps(s: State)
    requires |s.mem| > 0 && s.head == s.tail && s.consumer.Waiting?
    ensures Run(s, Repeat(Consume, 3)) == s.(seen := |s.published|)
  {
    var s2 := s.(consumer := Looping(s.head, s.tail), seen := |s.published|);
    PositionsAlone(s);
    Look(s2, Waiting);
    AloneThrough(Consume, 2, 1, s, s2, s.(seen := |s.published|));
  }

  /** Past the marker, with the length of the frame behind it read. */
  lemma SkipsMarker(s: State, off: nat)
    requires ValidSize(|s.mem|) && s.head % 8 == 0 && off == Off(|s.mem|, s.head) && IsMarker(s.mem, off)
    requires s.consumer == Length(s.head, s.tail, FirstBytes(s.mem, off, 4))
    requires s.head + ToEnd(|s.mem|, s.head) != s.tail
    ensures var h := s.head + ToEnd(|s.mem|, s.head);
      Off(|s.mem|, h) == 0
      && Alone(Consume, 6, s, s.(head := h, consumer := Length(h, s.tail, FirstBytes(s.mem, 0, 4))))
  {
    hide U32At, FromLe, Alone, Off, Checked;
    var h := s.head + ToEnd(|s.mem|, s.head);
    var got := FirstBytes(s.mem, off, 4);
    EndIsAhead(|s.mem|, s.head);
    U32AtIsFromLe(s.mem, off);
    U32AtIsFromLe(got, 0);
    assert got[0..4] == got;
    var s1 := s.(head := h, consumer := Looping(h, s.tail));
    var s2 := s1.(consumer := Length(h, s.tail, FirstBytes(s.mem, 0, 0)));
    var s3 := s1.(consumer := Length(h, s.tail, FirstBytes(s.mem, 0, 4)));
    AloneOnce(Consume, s);
    assert Step(s, Consume) == s1 by { assert s.popped + [] == s.popped; }
    assert FirstBytes(s.mem, 0, 0) == [];
    Look(s1, s2.consumer);
    AloneThrough(Consume, 1, 1, s, s1, s2);
    LengthAlone(s2, 0, 0);
    AloneThrough(Consume, 2, 4, s, s2, s3);
  }

  /** Whatever bytes are in the ring: where no marker stands at head, the consumer alone raises
      exactly when the length field announces no frame before tail and the end of the ring. */
  lemma CorruptExactly(s: State)
    requires ValidSize(|s.mem|) && s.head % 8 == 0 && s.tail % 8 == 0
    requires s.consumer.Waiting? && s.head != s.tail && !IsMarker(s.mem, Off(|s.mem|, s.head))
    ensures Run(s, Repeat(Consume, 8)).consumer == Corrupt <==> !Announced(s.mem, s.head, s.tail)
  {
    hide Alone, Off, Announced;
    var off := Off(|s.mem|, s.head);
    OffAligned(|s.mem|, s.head);
    var got := FirstBytes(s.mem, off, 4);
    var s1 := s.(consumer := Length(s.head, s.tail, got), seen := |s.published|);
    LookAlone(s, off);
    CheckedExactly(s.mem, s.head, s.tail, got);
    var s2 := s1.(consumer := Checked(|s.mem|, s.head, s.tail, got));
    Look(s1, s2.consumer);
    AloneThrough(Consume, 7, 1, s, s1, s2);
    AloneIs(Consume, 8, s, s2);
  }

  lemma AloneIs(a: Action, n: nat, s: State, s': State)
    requires |s.mem| > 0 && Alone(a, n, s, s')
    ensures Run(s, Repeat(a, n)) == s'
  {
  }

  lemma CheckedExactly(mem: seq<byte>, h: nat, t: nat, got: seq<byte>)
    requires ValidSize(|mem|) && h % 8 == 0 && t % 8 == 0 && Off(|mem|, h) + 4 <= |mem|
    requires got == FirstBytes(mem, Off(|mem|, h), 4) && !IsMarker(mem, Off(|mem|, h))
    ensures U32At(got, 0) != PADDING
    ensures Checked(|mem|, h, t, got) == Corrupt <==> !Announced(mem, h, t)
  {
    hide Off, FromLe;
    var off := Off(|mem|, h);
    U32AtIsFromLe(mem, off);
    U32AtIsFromLe(got, 0);
    assert got[0..4] == got;
    RoundedFits(h, 4 + U32At(mem, off), t);
  }

  /** The consumer steps in a call: two loads, the look at them, four bytes of the length, six
      more steps for a marker, and the rest of the frame. */
  function ReadSteps(mem: seq<byte>, head: nat, f: seq<byte>): nat
    requires |mem| > 0
  {
    |f| + 5 + if IsMarker(mem, Off(|mem|, head)) then 6 else 0
  }

  /** `peek`, the copy of the view and `pop` are so many steps of the consumer, with no step of
      the producer: past at most one marker they take the oldest frame. */
  lemma ReadIsItsSteps(s: State, contents: seq<seq<byte>>)
    requires SharedInv(s.mem, s.head, s.tail, contents) && contents != [] && s.consumer.Waiting?
    ensures Run(s, Repeat(Consume, ReadSteps(s.mem, s.head, contents[0])))
         == s.(head := Start(s.mem, s.head) + Need(contents[0]), popped := s.popped + [contents[0]],
               seen := |s.published|)
  {
    hide Off, Layout, Start, Holds, IsMarker, Run, Repeat, Need;
    FirstIsPlaced(s.mem, s.head, s.tail, contents);
    if IsMarker(s.mem, Off(|s.mem|, s.head)) {
      ReadsPastMarker(s, contents[0]);
    } else {
      ReadAlone(s, contents[0]);
    }
  }

  lemma FirstIsPlaced(mem: seq<byte>, head: nat, tail: nat, contents: seq<seq<byte>>)
    requires SharedInv(mem, head, tail, contents) && contents != []
    ensures var h := Start(mem, head);
      && h == (if IsMarker(mem, Off(|mem|, head)) then head + ToEnd(|mem|, head) else head)
      && WellFormed(contents[0]) && Holds(mem, Off(|mem|, h), contents[0]) && h + Need(contents[0]) <= tail
    ensures head != tail && Off(|mem|, head) + 4 <= |mem|
  {
    hide Off, U32At, Holds;
    OffAligned(|mem|, head);
    LayoutBounds(mem, head, tail, contents);
  }

  lemma ReadsPastMarker(s: State, f: seq<byte>)
    requires ValidSize(|s.mem|) && s.head % 8 == 0 && s.consumer.Waiting? && s.head != s.tail
    requires IsMarker(s.mem, Off(|s.mem|, s.head)) && WellFormed(f)
    requires var h := s.head + ToEnd(|s.mem|, s.head); Holds(s.mem, Off(|s.mem|, h), f) && h + Need(f) <= s.tail
    ensures Alone(Consume, |f| + 11, s,
                  s.(head := s.head + ToEnd(|s.mem|, s.head) + Need(f), popped := s.popped + [f],
                     seen := |s.published|))
  {
    hide Alone, Off, Holds;
    var off, h := Off(|s.mem|, s.head), s.head + ToEnd(|s.mem|, s.head);
    var s1 := s.(consumer := Length(s.head, s.tail, FirstBytes(s.mem, off, 4)), seen := |s.published|);
    var s2 := s1.(head := h, consumer := Length(h, s.tail, FirstBytes(s.mem, 0, 4)));
    EndIsAhead(|s.mem|, s.head);
    StartIsAligned(s.mem, s.head);
    LookAlone(s, off);
    SkipsMarker(s1, off);
    AloneThrough(Consume, 7, 6, s, s1, s2);
    TakeAlone(s2, f);
    AloneThrough(Consume, 13, |f| - 2, s, s2,
                 s.(head := h + Need(f), popped := s.popped + [f], seen := |s.published|));
  }
}
