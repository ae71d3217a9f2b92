/** The ring of clients/python/modb_client.py as two processes that share memory. */
module RingProtocol {
  // Each load or store of a position, each marker byte and each frame byte is one step, and the
  // steps interleave in any order. Each side decides with the stale copy of the other's position.

  import opened Bytes
  import opened Frames
  import opened RingLayout

  /** Where the producer is inside `try_write`. */
  datatype Producer =
    | Idle
    | Entered(frame: seq<byte>)                     // passed the size check
    | ReadHead(frame: seq<byte>, h: nat)            // has its copy of head
    | ReadTail(frame: seq<byte>, h: nat, t: nat)    // has both positions
    | Padding(frame: seq<byte>, t: nat, k: nat)     // k marker bytes written at t
    | Copying(frame: seq<byte>, start: nat, k: nat) // k frame bytes written at start

  /** Where the consumer is inside `peek`, the copy of the view, and `pop`. */
  datatype Consumer =
    | Waiting
    | GotHead(h: nat)
    | Looping(h: nat, t: nat)                    // at the top of peek's loop
    | Length(h: nat, t: nat, got: seq<byte>)     // reading the length field
    | Viewing(n: nat, got: seq<byte>)            // copying the n bytes of the view
    | Corrupt                                    // raised "corrupt shared-memory ring"

  /** published, popped and seen are history: what was stored with tail, what the consumer
      took, and how many frames were published when the consumer last read tail. */
  datatype State = State(
    mem: seq<byte>, head: nat, tail: nat, producer: Producer, consumer: Consumer,
    published: seq<seq<byte>>, popped: seq<seq<byte>>, seen: nat)

  datatype Action = Offer(frame: seq<byte>) | Produce | Consume

  function Init(mem: seq<byte>, p: nat): State {
    State(mem, p, p, Idle, Waiting, [], [], 0)
  }

  /** Bytes left before the end of the ring. */
  function ToEnd(size: nat, p: nat): (r: nat)
    requires size > 0
    ensures r > 0
  {
    size - Off(size, p)
  }

  /** Ring space a frame takes at t, with the stretch the marker skips. */
  function Total(size: nat, t: nat, f: seq<byte>): nat
    requires size > 0
  {
    if Need(f) > ToEnd(size, t) then ToEnd(size, t) + Need(f) else Need(f)
  }

  /** What one producer step stores: memory, tail, where it goes on, the frame it publishes. */
  datatype Stored = Stored(mem: seq<byte>, tail: nat, next: Producer, out: seq<seq<byte>>)

  function Produced(mem: seq<byte>, head: nat, tail: nat, p: Producer): (r: Stored)
    requires |mem| > 0
    ensures |r.mem| == |mem|
  {
    match p
    case Idle => Stored(mem, tail, p, [])
    case Entered(f) => Stored(mem, tail, ReadHead(f, head), [])
    case ReadHead(f, h) => Stored(mem, tail, ReadTail(f, h, tail), [])
    case ReadTail(f, h, t) => Stored(mem, tail, Decision(|mem|, f, h, t), [])
    case Padding(f, t, k) =>
      if k < 4 && Off(|mem|, t) + k < |mem| then
        Stored(mem[Off(|mem|, t) + k := 255], tail, Padding(f, t, k + 1), [])
      else
        Stored(mem, tail, Copying(f, t + ToEnd(|mem|, t), 0), [])
    case Copying(f, start, k) =>
      if k < |f| && Off(|mem|, start) + k < |mem| then
        Stored(mem[Off(|mem|, start) + k := f[k]], tail, Copying(f, start, k + 1), [])
      else
        Stored(mem, start + Need(f), Idle, [f])
  }

  function Decision(size: nat, f: seq<byte>, h: nat, t: nat): Producer
    requires size > 0
  {
    if t + Total(size, t, f) > size + h then Idle
    else if Need(f) > ToEnd(size, t) then Padding(f, t, 0)
    else Copying(f, t, 0)
  }

  /** What one consumer step does: head, where it goes on, the frame it hands over. */
  datatype Taken = Taken(head: nat, next: Consumer, out: seq<seq<byte>>)

  function Consumed(mem: seq<byte>, head: nat, tail: nat, c: Consumer): Taken
    requires |mem| > 0
  {
    match c
    case Waiting => Taken(head, GotHead(head), [])
    case GotHead(h) => Taken(head, Looping(h, tail), [])
    case Looping(h, t) => Taken(head, if h == t then Waiting else Length(h, t, []), [])
    case Length(h, t, got) =>
      if |got| < 4 && Off(|mem|, h) + |got| < |mem| then
        Taken(head, Length(h, t, got + [mem[Off(|mem|, h) + |got|]]), [])
      else if |got| == 4 && U32At(got, 0) == PADDING then
        Taken(h + ToEnd(|mem|, h), Looping(h + ToEnd(|mem|, h), t), [])
      else
        Taken(head, Checked(|mem|, h, t, got), [])
    case Viewing(n, got) =>
      if |got| < n && Off(|mem|, head) + |got| < |mem| then
        Taken(head, Viewing(n, got + [mem[Off(|mem|, head) + |got|]]), [])
      else
        Taken(head + Rounded(n), Waiting, [got])
    case Corrupt => Taken(head, Corrupt, [])
  }

  /** `(n + 7) & ~7`. */
  function Rounded(n: nat): nat {
    (n + 7) / 8 * 8
  }

  function Checked(size: nat, h: nat, t: nat, got: seq<byte>): Consumer
    requires size > 0
  {
    if |got| < 4 then Corrupt
    else
      var length := U32At(got, 0);
      var n := 4 + length;
      if length == 0 || length > MAX_FRAME_BYTES || n > ToEnd(size, h) || h + Rounded(n) > t then Corrupt
      else Viewing(n, got)
  }

  function Step(s: State, a: Action): (s': State)
    requires |s.mem| > 0
    ensures |s'.mem| == |s.mem|
  {
    match a
    case Offer(f) =>
      if s.producer.Idle? && Need(f) <= |s.mem| then s.(producer := Entered(f)) else s
    case Produce =>
      var r := Produced(s.mem, s.head, s.tail, s.producer);
      s.(mem := r.mem, tail := r.tail, producer := r.next, published := s.published + r.out)
    case Consume =>
      var r := Consumed(s.mem, s.head, s.tail, s.consumer);
      s.(head := r.head, consumer := r.next, popped := s.popped + r.out,
         seen := if s.consumer.GotHead? then |s.published| else s.seen)
  }

  function Run(s: State, actions: seq<Action>): (s': State)
    requires |s.mem| > 0
    ensures |s'.mem| == |s.mem|
    decreases |actions|
  {
    if actions == [] then s else Run(Step(s, actions[0]), actions[1..])
  }

  ghost predicate OffersFrames(actions: seq<Action>) {
    forall a :: a in actions && a.Offer? ==> WellFormed(a.frame)
  }

  // ----- what every step keeps -----

  ghost predicate Fits(mem: seq<byte>, f: seq<byte>) {
    WellFormed(f) && Need(f) <= |mem|
  }

  /** The shared memory: from head to tail lie exactly the live frames, in less than a lap. */
  ghost predicate SharedInv(mem: seq<byte>, head: nat, tail: nat, live: seq<seq<byte>>) {
    && ValidSize(|mem|)
    && head % 8 == 0 && tail % 8 == 0
    && head <= tail <= head + |mem|
    && Layout(mem, head, tail, live)
  }

  /** A frame goes right at tail, or to byte 0 behind a finished marker. */
  ghost predicate StartOfWrite(mem: seq<byte>, tail: nat, start: nat)
    requires |mem| > 0
  {
    || start == tail
    || (start == tail + ToEnd(|mem|, tail) && start >= tail + 8
        && Off(|mem|, start) == 0 && IsMarker(mem, Off(|mem|, tail)))
  }

  ghost predicate PaddingInv(mem: seq<byte>, head: nat, tail: nat, f: seq<byte>, k: nat)
    requires |mem| > 0
  {
    && k <= 4 && Need(f) > ToEnd(|mem|, tail)
    && tail + ToEnd(|mem|, tail) + Need(f) <= head + |mem|
    && Off(|mem|, tail) + 8 <= |mem|
    && forall i :: Off(|mem|, tail) <= i < Off(|mem|, tail) + k ==> mem[i] == 255
  }

  ghost predicate CopyingInv(mem: seq<byte>, head: nat, tail: nat, f: seq<byte>, start: nat, k: nat)
    requires |mem| > 0
  {
    && k <= |f| && StartOfWrite(mem, tail, start)
    && Off(|mem|, start) + Need(f) <= |mem|
    && start + Need(f) <= head + |mem|
    && mem[Off(|mem|, start)..Off(|mem|, start) + k] == f[..k]
  }

  ghost predicate ProducerInv(mem: seq<byte>, head: nat, tail: nat, p: Producer)
    requires |mem| > 0
  {
    match p
    case Idle => true
    case Entered(f) => Fits(mem, f)
    case ReadHead(f, h) => Fits(mem, f) && h <= head
    case ReadTail(f, h, t) => Fits(mem, f) && h <= head && t == tail
    case Padding(f, t, k) => Fits(mem, f) && t == tail && PaddingInv(mem, head, tail, f, k)
    case Copying(f, start, k) => Fits(mem, f) && CopyingInv(mem, head, tail, f, start, k)
  }

  /** The consumer's copy of tail covers the first cover live frames, and nothing torn. */
  ghost predicate CoverInv(mem: seq<byte>, head: nat, tail: nat, live: seq<seq<byte>>, cover: int, t: nat)
    requires |mem| > 0
  {
    t <= tail && 0 <= cover <= |live| && Layout(mem, head, t, live[..cover])
  }

  ghost predicate LengthInv(mem: seq<byte>, head: nat, got: seq<byte>)
    requires |mem| > 0
  {
    && |got| <= 4 && Off(|mem|, head) + 8 <= |mem|
    && got == mem[Off(|mem|, head)..Off(|mem|, head) + |got|]
  }

  ghost predicate ViewingInv(mem: seq<byte>, head: nat, live: seq<seq<byte>>, n: nat, got: seq<byte>)
    requires |mem| > 0
  {
    && live != [] && n == |live[0]| && 4 <= |got| <= n
    && Start(mem, head) == head
    && got == live[0][..|got|]
  }

  ghost predicate ConsumerInv(mem: seq<byte>, head: nat, tail: nat, live: seq<seq<byte>>, cover: int, c: Consumer)
    requires |mem| > 0
  {
    match c
    case Waiting => true
    case GotHead(h) => h == head
    case Looping(h, t) => h == head && CoverInv(mem, head, tail, live, cover, t)
    case Length(h, t, got) =>
      h == head && CoverInv(mem, head, tail, live, cover, t) && cover > 0 && LengthInv(mem, head, got)
    case Viewing(n, got) => ViewingInv(mem, head, live, n, got)
    case Corrupt => false
  }

  /** The frames in the ring, oldest first. */
  function Live(s: State): seq<seq<byte>>
    requires |s.popped| <= |s.published|
  {
    s.published[|s.popped|..]
  }

  ghost predicate Inv(s: State) {
    && s.popped <= s.published
    && SharedInv(s.mem, s.head, s.tail, Live(s))
    && ProducerInv(s.mem, s.head, s.tail, s.producer)
    && ConsumerInv(s.mem, s.head, s.tail, Live(s), s.seen - |s.popped|, s.consumer)
  }

  lemma InitInv(mem: seq<byte>, p: nat)
    requires ValidSize(|mem|) && p % 8 == 0
    ensures Inv(Init(mem, p))
  {
  }

  // ----- the producer's side -----

  /** A store less than one lap past head, at or past tail, touches no byte in between. */
  lemma StoreIsOutside(mem: seq<byte>, head: nat, tail: nat, q: nat, b: byte)
    requires |mem| > 0 && tail <= q < head + |mem|
    ensures Agree(mem, mem[Off(|mem|, q) := b], head, tail)
  {
    forall p: nat | head <= p < tail ensures Off(|mem|, p) != Off(|mem|, q) {
      OffApart(|mem|, p, q);
    }
  }

  lemma CoverSurvives(mem: seq<byte>, mem': seq<byte>, head: nat, tail: nat, live: seq<seq<byte>>, cover: int, t: nat)
    requires SharedInv(mem, head, tail, live) && Agree(mem, mem', head, tail)
    requires CoverInv(mem, head, tail, live, cover, t)
    ensures CoverInv(mem', head, tail, live, cover, t)
  {
    assert Agree(mem, mem', head, t);
    LayoutFrame(mem, mem', head, t, live[..cover]);
  }

  lemma LengthSurvives(mem: seq<byte>, mem': seq<byte>, head: nat, t: nat, covered: seq<seq<byte>>, got: seq<byte>)
    requires ValidSize(|mem|) && head % 8 == 0 && LengthInv(mem, head, got)
    requires Layout(mem, head, t, covered) && covered != [] && Agree(mem, mem', head, t)
    ensures LengthInv(mem', head, got)
  {
    hide Off;
    PlacedFacts(mem, head, covered[0]);
    assert Agree(mem, mem', head, head + |got|);
    SameBytes(mem, mem', head, |got|);
  }

  lemma ViewSurvives(mem: seq<byte>, mem': seq<byte>, head: nat, tail: nat, live: seq<seq<byte>>)
    requires SharedInv(mem, head, tail, live) && Agree(mem, mem', head, tail)
    requires live != [] && Start(mem, head) == head
    ensures Start(mem', head) == head
  {
    assert Agree(mem, mem', head, Next(mem, head, live[0]));
    PlacedFrame(mem, mem', head, live[0]);
  }

  /** Bytes outside the live ones may change under the consumer. */
  lemma ConsumerSurvives(mem: seq<byte>, mem': seq<byte>, head: nat, tail: nat, live: seq<seq<byte>>, cover: int,
                         c: Consumer)
    requires SharedInv(mem, head, tail, live) && Agree(mem, mem', head, tail)
    requires ConsumerInv(mem, head, tail, live, cover, c)
    ensures SharedInv(mem', head, tail, live)
    ensures ConsumerInv(mem', head, tail, live, cover, c)
  {
    LayoutFrame(mem, mem', head, tail, live);
    match c
    case Waiting =>
    case GotHead(h) =>
    case Looping(h, t) =>
      CoverSurvives(mem, mem', head, tail, live, cover, t);
    case Length(h, t, got) =>
      CoverSurvives(mem, mem', head, tail, live, cover, t);
      assert Agree(mem, mem', head, t);
      LengthSurvives(mem, mem', head, t, live[..cover], got);
    case Viewing(n, got) =>
      ViewSurvives(mem, mem', head, tail, live);
  }

  lemma PaddingStore(mem: seq<byte>, head: nat, tail: nat, f: seq<byte>, k: nat)
    requires ValidSize(|mem|) && head <= tail && PaddingInv(mem, head, tail, f, k) && k < 4
    ensures var mem' := mem[Off(|mem|, tail) + k := 255];
      PaddingInv(mem', head, tail, f, k + 1) && Agree(mem, mem', head, tail)
  {
    OffForward(|mem|, tail, k);
    StoreIsOutside(mem, head, tail, tail + k, 255);
  }

  lemma PaddingDone(mem: seq<byte>, head: nat, tail: nat, f: seq<byte>)
    requires ValidSize(|mem|) && head <= tail && PaddingInv(mem, head, tail, f, 4)
    requires Need(f) <= |mem|
    ensures CopyingInv(mem, head, tail, f, tail + ToEnd(|mem|, tail), 0)
  {
    var off := Off(|mem|, tail);
    OffWraps(|mem|, tail);
    assert mem[off] == 255 && mem[off + 1] == 255 && mem[off + 2] == 255 && mem[off + 3] == 255;
    assert mem[0..0] == f[..0];
  }

  /** Writing one more byte of f behind what is there already. */
  lemma CopyOneByte(mem: seq<byte>, off: nat, f: seq<byte>, k: nat)
    requires k < |f| && off + k < |mem| && mem[off..off + k] == f[..k]
    ensures mem[off + k := f[k]][off..off + (k + 1)] == f[..k + 1]
  {
    var mem' := mem[off + k := f[k]];
    assert mem'[off..off + (k + 1)] == mem'[off..off + k] + [f[k]];
    assert mem'[off..off + k] == mem[off..off + k];
  }

  /** Writing the frame at byte 0 leaves its marker alone. */
  lemma MarkerSurvives(mem: seq<byte>, head: nat, tail: nat, q: nat, b: byte)
    requires ValidSize(|mem|) && tail % 8 == 0 && head <= tail && tail + 8 <= q < head + |mem|
    requires IsMarker(mem, Off(|mem|, tail))
    ensures IsMarker(mem[Off(|mem|, q) := b], Off(|mem|, tail))
  {
    var mem' := mem[Off(|mem|, q) := b];
    StoreIsOutside(mem, tail, tail + 4, q, b);
    StartFrame(mem, mem', tail);
  }

  lemma CopyStore(mem: seq<byte>, head: nat, tail: nat, f: seq<byte>, start: nat, k: nat)
    requires ValidSize(|mem|) && tail % 8 == 0 && head <= tail
    requires CopyingInv(mem, head, tail, f, start, k) && k < |f|
    ensures var mem' := mem[Off(|mem|, start) + k := f[k]];
      CopyingInv(mem', head, tail, f, start, k + 1) && Agree(mem, mem', head, tail)
  {
    OffForward(|mem|, start, k);
    StoreIsOutside(mem, head, tail, start + k, f[k]);
    CopyOneByte(mem, Off(|mem|, start), f, k);
    if start != tail {
      MarkerSurvives(mem, head, tail, start + k, f[k]);
    }
  }

  lemma FrameIsPlaced(mem: seq<byte>, head: nat, tail: nat, f: seq<byte>, start: nat)
    requires ValidSize(|mem|) && CopyingInv(mem, head, tail, f, start, |f|) && WellFormed(f)
    ensures Placed(mem, tail, f) && Start(mem, tail) == start
  {
    assert Holds(mem, Off(|mem|, start), f);
    if start == tail {
      HeldFrameIsNoMarker(mem, Off(|mem|, start), f);
    }
  }

  lemma Publish(mem: seq<byte>, head: nat, tail: nat, tail': nat, live: seq<seq<byte>>, f: seq<byte>, start: nat)
    requires SharedInv(mem, head, tail, live) && WellFormed(f)
    requires CopyingInv(mem, head, tail, f, start, |f|) && tail' == start + Need(f)
    ensures SharedInv(mem, head, tail', live + [f]) && tail' > tail
  {
    FrameIsPlaced(mem, head, tail, f, start);
    LayoutAppend(mem, head, tail, live, f);
    PlacedFacts(mem, tail, f);
    assert tail' == Next(mem, tail, f);
  }

  /** One producer step: where it stores, and what a reader then finds. */
  ghost predicate ProducerGoesOn(mem: seq<byte>, head: nat, tail: nat, live: seq<seq<byte>>, r: Stored)
    requires |mem| > 0
  {
    && Agree(mem, r.mem, head, tail)
    && tail <= r.tail
    && SharedInv(r.mem, head, r.tail, live + r.out)
    && ProducerInv(r.mem, head, r.tail, r.next)
  }

  lemma StoreGoesOn(mem: seq<byte>, head: nat, tail: nat, live: seq<seq<byte>>, r: Stored)
    requires SharedInv(mem, head, tail, live) && Agree(mem, r.mem, head, tail)
    requires r.tail == tail && r.out == [] && ProducerInv(r.mem, head, tail, r.next)
    ensures ProducerGoesOn(mem, head, tail, live, r)
  {
    LayoutFrame(mem, r.mem, head, tail, live);
    assert live + [] == live;
  }

  lemma PaddingGoesOn(mem: seq<byte>, head: nat, tail: nat, live: seq<seq<byte>>, f: seq<byte>, k: nat)
    requires SharedInv(mem, head, tail, live) && Fits(mem, f) && PaddingInv(mem, head, tail, f, k)
    ensures ProducerGoesOn(mem, head, tail, live, Produced(mem, head, tail, Padding(f, tail, k)))
  {
    hide Layout, Off;
    var r := Produced(mem, head, tail, Padding(f, tail, k));
    if k < 4 {
      PaddingStore(mem, head, tail, f, k);
      assert ProducerInv(r.mem, head, tail, r.next);
    } else {
      PaddingDone(mem, head, tail, f);
      assert ProducerInv(r.mem, head, tail, r.next);
    }
    StoreGoesOn(mem, head, tail, live, r);
  }

  lemma CopyingGoesOn(mem: seq<byte>, head: nat, tail: nat, live: seq<seq<byte>>, f: seq<byte>, start: nat, k: nat)
    requires SharedInv(mem, head, tail, live) && Fits(mem, f) && CopyingInv(mem, head, tail, f, start, k)
    requires k < |f|
    ensures ProducerGoesOn(mem, head, tail, live, Produced(mem, head, tail, Copying(f, start, k)))
  {
    hide Layout, Off;
    var r := Produced(mem, head, tail, Copying(f, start, k));
    CopyStore(mem, head, tail, f, start, k);
    assert ProducerInv(r.mem, head, tail, r.next);
    StoreGoesOn(mem, head, tail, live, r);
  }

  lemma PublishGoesOn(mem: seq<byte>, head: nat, tail: nat, live: seq<seq<byte>>, f: seq<byte>, start: nat)
    requires SharedInv(mem, head, tail, live) && Fits(mem, f) && CopyingInv(mem, head, tail, f, start, |f|)
    ensures ProducerGoesOn(mem, head, tail, live, Produced(mem, head, tail, Copying(f, start, |f|)))
  {
    hide Layout;
    Publish(mem, head, tail, start + Need(f), live, f, start);
  }

  lemma DecisionGoesOn(mem: seq<byte>, head: nat, tail: nat, live: seq<seq<byte>>, f: seq<byte>, h: nat)
    requires SharedInv(mem, head, tail, live) && Fits(mem, f) && h <= head
    ensures ProducerGoesOn(mem, head, tail, live, Produced(mem, head, tail, ReadTail(f, h, tail)))
  {
    OffAligned(|mem|, tail);
    assert mem[Off(|mem|, tail)..Off(|mem|, tail)] == f[..0];
    StoreGoesOn(mem, head, tail, live, Produced(mem, head, tail, ReadTail(f, h, tail)));
  }

  lemma ProducerStepGoesOn(mem: seq<byte>, head: nat, tail: nat, live: seq<seq<byte>>, p: Producer)
    requires SharedInv(mem, head, tail, live) && ProducerInv(mem, head, tail, p)
    ensures ProducerGoesOn(mem, head, tail, live, Produced(mem, head, tail, p))
  {
    hide Layout, Off, Agree;
    match p
    case Idle => StoreGoesOn(mem, head, tail, live, Produced(mem, head, tail, p));
    case Entered(f) => StoreGoesOn(mem, head, tail, live, Produced(mem, head, tail, p));
    case ReadHead(f, h) => StoreGoesOn(mem, head, tail, live, Produced(mem, head, tail, p));
    case ReadTail(f, h, t) => DecisionGoesOn(mem, head, tail, live, f, h);
    case Padding(f, t, k) => PaddingGoesOn(mem, head, tail, live, f, k);
    case Copying(f, start, k) =>
      if k < |f| {
        CopyingGoesOn(mem, head, tail, live, f, start, k);
      } else {
        PublishGoesOn(mem, head, tail, live, f, start);
      }
  }

  /** More published frames do not disturb a consumer. */
  lemma ConsumerUnaffected(mem: seq<byte>, head: nat, tail: nat, tail': nat, live: seq<seq<byte>>,
                           out: seq<seq<byte>>, cover: int, c: Consumer)
    requires |mem| > 0 && tail <= tail' && ConsumerInv(mem, head, tail, live, cover, c)
    ensures ConsumerInv(mem, head, tail', live + out, cover, c)
  {
    if 0 <= cover <= |live| {
      assert (live + out)[..cover] == live[..cover];
    }
  }

  lemma StoredKeepsInv(s: State, r: Stored)
    requires Inv(s) && ProducerGoesOn(s.mem, s.head, s.tail, Live(s), r)
    ensures Inv(s.(mem := r.mem, tail := r.tail, producer := r.next, published := s.published + r.out))
  {
    var s' := s.(mem := r.mem, tail := r.tail, producer := r.next, published := s.published + r.out);
    var cover := s.seen - |s.popped|;
    ConsumerSurvives(s.mem, r.mem, s.head, s.tail, Live(s), cover, s.consumer);
    ConsumerUnaffected(r.mem, s.head, s.tail, r.tail, Live(s), r.out, cover, s.consumer);
    assert Live(s') == Live(s) + r.out;
    assert SharedInv(s'.mem, s'.head, s'.tail, Live(s'));
    assert ConsumerInv(s'.mem, s'.head, s'.tail, Live(s'), cover, s'.consumer);
  }

  lemma ProduceKeepsInv(s: State)
    requires Inv(s)
    ensures Inv(Step(s, Produce))
  {
    ProducerStepGoesOn(s.mem, s.head, s.tail, Live(s), s.producer);
    StoredKeepsInv(s, Produced(s.mem, s.head, s.tail, s.producer));
  }

  // ----- the consumer's side -----

  /** The consumer only frees space. */
  lemma ProducerUnaffected(mem: seq<byte>, head: nat, head': nat, tail: nat, p: Producer)
    requires |mem| > 0 && head <= head' && ProducerInv(mem, head, tail, p)
    ensures ProducerInv(mem, head', tail, p)
  {
  }

  lemma LengthIsRead(mem: seq<byte>, head: nat, got: seq<byte>)
    requires |mem| > 0 && LengthInv(mem, head, got) && |got| == 4
    ensures U32At(got, 0) == U32At(mem, Off(|mem|, head))
  {
    U32AtIsFromLe(got, 0);
    U32AtIsFromLe(mem, Off(|mem|, head));
    assert got[0..4] == mem[Off(|mem|, head)..Off(|mem|, head) + 4];
  }

  lemma Skip(mem: seq<byte>, head: nat, tail: nat, live: seq<seq<byte>>, cover: int, t: nat, got: seq<byte>)
    requires SharedInv(mem, head, tail, live) && CoverInv(mem, head, tail, live, cover, t) && cover > 0
    requires LengthInv(mem, head, got) && |got| == 4 && U32At(got, 0) == PADDING
    ensures var head' := head + ToEnd(|mem|, head);
      SharedInv(mem, head', tail, live) && CoverInv(mem, head', tail, live, cover, t)
  {
    hide Layout, U32At, Off;
    LengthIsRead(mem, head, got);
    SkipMarker(mem, head, tail, live);
    SkipMarker(mem, head, t, live[..cover]);
  }

  /** The checks that raise "corrupt shared-memory ring" all pass. */
  lemma ChecksPass(mem: seq<byte>, head: nat, tail: nat, live: seq<seq<byte>>, cover: int, t: nat, got: seq<byte>)
    requires SharedInv(mem, head, tail, live) && CoverInv(mem, head, tail, live, cover, t) && cover > 0
    requires LengthInv(mem, head, got) && |got| == 4 && U32At(got, 0) != PADDING
    ensures var n := 4 + U32At(got, 0);
      && 4 < n <= 4 + MAX_FRAME_BYTES && n <= ToEnd(|mem|, head) && head + (n + 7) / 8 * 8 <= t
      && ViewingInv(mem, head, live, n, got)
  {
    hide U32At, Off;
    LengthIsRead(mem, head, got);
    var f, off := live[0], Off(|mem|, head);
    assert live[..cover][0] == f;
    assert Start(mem, head) == head;
    HeldFrameIsNoMarker(mem, off, f);
    assert Next(mem, head, f) <= t by {
      LayoutBounds(mem, Next(mem, head, f), t, live[..cover][1..]);
    }
    assert got == mem[off..off + 4] == mem[off..off + |f|][..4] == f[..4];
  }

  lemma ViewStep(mem: seq<byte>, head: nat, tail: nat, live: seq<seq<byte>>, n: nat, got: seq<byte>)
    requires SharedInv(mem, head, tail, live) && ViewingInv(mem, head, live, n, got)
    ensures Off(|mem|, head) + n <= |mem|
    ensures |got| < n ==> ViewingInv(mem, head, live, n, got + [mem[Off(|mem|, head) + |got|]])
  {
    var f, off := live[0], Off(|mem|, head);
    assert Holds(mem, off, f);
    if |got| < n {
      assert mem[off..off + |f|][|got|] == f[|got|];
      assert f[..|got| + 1] == f[..|got|] + [f[|got|]];
    }
  }

  lemma Take(mem: seq<byte>, head: nat, tail: nat, live: seq<seq<byte>>)
    requires SharedInv(mem, head, tail, live) && live != [] && Start(mem, head) == head
    ensures SharedInv(mem, head + Need(live[0]), tail, live[1..])
  {
    PlacedFacts(mem, head, live[0]);
  }

  /** One consumer step: which frame it hands over, and what is left. */
  ghost predicate ConsumerGoesOn(mem: seq<byte>, tail: nat, live: seq<seq<byte>>, cover: int, head: nat, r: Taken)
    requires |mem| > 0
  {
    && head <= r.head
    && r.out <= live
    && SharedInv(mem, r.head, tail, live[|r.out|..])
    && ConsumerInv(mem, r.head, tail, live[|r.out|..], cover - |r.out|, r.next)
  }

  lemma LookGoesOn(mem: seq<byte>, tail: nat, live: seq<seq<byte>>, cover: int, head: nat, r: Taken)
    requires |mem| > 0 && head <= r.head && r.out == []
    requires SharedInv(mem, r.head, tail, live) && ConsumerInv(mem, r.head, tail, live, cover, r.next)
    ensures ConsumerGoesOn(mem, tail, live, cover, head, r)
  {
    assert live[0..] == live;
  }

  lemma SkipGoesOn(mem: seq<byte>, head: nat, tail: nat, live: seq<seq<byte>>, cover: int, t: nat, got: seq<byte>)
    requires SharedInv(mem, head, tail, live) && CoverInv(mem, head, tail, live, cover, t) && cover > 0
    requires LengthInv(mem, head, got) && |got| == 4 && U32At(got, 0) == PADDING
    ensures ConsumerGoesOn(mem, tail, live, cover, head, Consumed(mem, head, tail, Length(head, t, got)))
  {
    Skip(mem, head, tail, live, cover, t, got);
    LookGoesOn(mem, tail, live, cover, head, Consumed(mem, head, tail, Length(head, t, got)));
  }

  lemma CheckGoesOn(mem: seq<byte>, head: nat, tail: nat, live: seq<seq<byte>>, cover: int, t: nat, got: seq<byte>)
    requires SharedInv(mem, head, tail, live) && CoverInv(mem, head, tail, live, cover, t) && cover > 0
    requires LengthInv(mem, head, got) && |got| == 4 && U32At(got, 0) != PADDING
    ensures ConsumerGoesOn(mem, tail, live, cover, head, Consumed(mem, head, tail, Length(head, t, got)))
  {
    ChecksPass(mem, head, tail, live, cover, t, got);
    LookGoesOn(mem, tail, live, cover, head, Consumed(mem, head, tail, Length(head, t, got)));
  }

  lemma LengthByteGoesOn(mem: seq<byte>, head: nat, tail: nat, live: seq<seq<byte>>, cover: int, t: nat, got: seq<byte>)
    requires SharedInv(mem, head, tail, live) && CoverInv(mem, head, tail, live, cover, t) && cover > 0
    requires LengthInv(mem, head, got) && |got| < 4
    ensures ConsumerGoesOn(mem, tail, live, cover, head, Consumed(mem, head, tail, Length(head, t, got)))
  {
    var off := Off(|mem|, head);
    assert mem[off..off + (|got| + 1)] == got + [mem[off + |got|]];
    LookGoesOn(mem, tail, live, cover, head, Consumed(mem, head, tail, Length(head, t, got)));
  }

  lemma ViewingGoesOn(mem: seq<byte>, head: nat, tail: nat, live: seq<seq<byte>>, cover: int, n: nat, got: seq<byte>)
    requires SharedInv(mem, head, tail, live) && ViewingInv(mem, head, live, n, got)
    ensures ConsumerGoesOn(mem, tail, live, cover, head, Consumed(mem, head, tail, Viewing(n, got)))
  {
    ViewStep(mem, head, tail, live, n, got);
    if |got| < n {
      LookGoesOn(mem, tail, live, cover, head, Consumed(mem, head, tail, Viewing(n, got)));
    } else {
      Take(mem, head, tail, live);
      assert got == live[0];
    }
  }

  lemma ConsumerStepGoesOn(mem: seq<byte>, head: nat, tail: nat, live: seq<seq<byte>>, cover: int, c: Consumer)
    requires SharedInv(mem, head, tail, live)
    requires ConsumerInv(mem, head, tail, live, if c.GotHead? then |live| else cover, c)
    ensures ConsumerGoesOn(mem, tail, live, if c.GotHead? then |live| else cover, head, Consumed(mem, head, tail, c))
  {
    match c
    case Length(h, t, got) =>
      if |got| < 4 {
        LengthByteGoesOn(mem, head, tail, live, cover, t, got);
      } else if U32At(got, 0) == PADDING {
        SkipGoesOn(mem, head, tail, live, cover, t, got);
      } else {
        CheckGoesOn(mem, head, tail, live, cover, t, got);
      }
    case Viewing(n, got) => ViewingGoesOn(mem, head, tail, live, cover, n, got);
    case GotHead(h) =>
      assert live[0..] == live == live[..|live|];
    case Looping(h, t) =>
      OffAligned(|mem|, head);
      assert live[0..] == live;
    case Waiting =>
      assert live[0..] == live;
    case Corrupt =>
  }

  lemma PrefixGrows<T>(taken: seq<T>, all: seq<T>, out: seq<T>)
    requires taken <= all && out <= all[|taken|..]
    ensures taken + out <= all
    ensures all[|taken + out|..] == all[|taken|..][|out|..]
  {
  }

  lemma TakenKeepsInv(s: State, r: Taken, seen: nat)
    requires Inv(s) && ConsumerGoesOn(s.mem, s.tail, Live(s), seen - |s.popped|, s.head, r)
    ensures Inv(s.(head := r.head, consumer := r.next, popped := s.popped + r.out, seen := seen))
  {
    var s' := s.(head := r.head, consumer := r.next, popped := s.popped + r.out, seen := seen);
    ProducerUnaffected(s.mem, s.head, r.head, s.tail, s.producer);
    PrefixGrows(s.popped, s.published, r.out);
    assert SharedInv(s'.mem, s'.head, s'.tail, Live(s'));
    assert ConsumerInv(s'.mem, s'.head, s'.tail, Live(s'), seen - |s'.popped|, s'.consumer);
  }

  lemma ConsumeKeepsInv(s: State)
    requires Inv(s)
    ensures Inv(Step(s, Consume))
  {
    hide Layout, ProducerInv, Consumed;
    var r := Consumed(s.mem, s.head, s.tail, s.consumer);
    var seen := if s.consumer.GotHead? then |s.published| else s.seen;
    ConsumerStepGoesOn(s.mem, s.head, s.tail, Live(s), s.seen - |s.popped|, s.consumer);
    TakenKeepsInv(s, r, seen);
  }

  lemma StepKeepsInv(s: State, a: Action)
    requires Inv(s) && (a.Offer? ==> WellFormed(a.frame))
    ensures Inv(Step(s, a))
  {
    match a
    case Offer(f) =>
    case Produce => ProduceKeepsInv(s);
    case Consume => ConsumeKeepsInv(s);
  }

  lemma {:induction false} RunKeepsInv(s: State, actions: seq<Action>)
    requires Inv(s) && OffersFrames(actions)
    ensures Inv(Run(s, actions))
    decreases |actions|
  {
    if actions != [] {
      assert actions[0] in actions;
      StepKeepsInv(s, actions[0]);
      RunKeepsInv(Step(s, actions[0]), actions[1..]);
    }
  }

  // ----- main results -----

  /** Every interleaving, from any memory and any aligned position: what the consumer took is,
      byte for byte and in order, a prefix of what the producer published, and the check that
      raises "corrupt shared-memory ring" never fails. */
  lemma RingIsSafe(mem: seq<byte>, p: nat, actions: seq<Action>)
    requires ValidSize(|mem|) && p % 8 == 0 && OffersFrames(actions)
    ensures var s := Run(Init(mem, p), actions);
      s.popped <= s.published && !s.consumer.Corrupt?
  {
    InitInv(mem, p);
    RunKeepsInv(Init(mem, p), actions);
  }

  /** The producer's next step stores to byte i of the ring. */
  ghost predicate StoresAt(size: nat, p: Producer, i: nat)
    requires size > 0
  {
    match p
    case Padding(f, t, k) => k < 4 && i == Off(size, t) + k
    case Copying(f, start, k) => k < |f| && i == Off(size, start) + k
    case _ => false
  }

  lemma StoreIsAhead(mem: seq<byte>, head: nat, tail: nat, p: Producer, i: nat) returns (q: nat)
    requires ValidSize(|mem|) && head <= tail && ProducerInv(mem, head, tail, p) && StoresAt(|mem|, p, i)
    ensures tail <= q < head + |mem| && Off(|mem|, q) == i
  {
    match p
    case Padding(f, t, k) =>
      OffForward(|mem|, t, k);
      q := t + k;
    case Copying(f, start, k) =>
      OffForward(|mem|, start, k);
      q := start + k;
  }

  /** No byte between head and tail is ever overwritten: in every reachable state the byte the
      producer is about to store to lives at none of those positions. */
  lemma LiveBytesAreNeverOverwritten(mem: seq<byte>, p: nat, actions: seq<Action>, i: nat, q: nat)
    requires ValidSize(|mem|) && p % 8 == 0 && OffersFrames(actions)
    requires StoresAt(|mem|, Run(Init(mem, p), actions).producer, i)
    requires var s := Run(Init(mem, p), actions); s.head <= q < s.tail
    ensures Off(|mem|, q) != i
  {
    var s := Run(Init(mem, p), actions);
    InitInv(mem, p);
    RunKeepsInv(Init(mem, p), actions);
    var q' := StoreIsAhead(s.mem, s.head, s.tail, s.producer, i);
    OffApart(|mem|, q, q');
  }

  /** …and indeed no step of either side changes any of those bytes. */
  lemma LiveBytesStay(mem: seq<byte>, p: nat, actions: seq<Action>, a: Action, q: nat)
    requires ValidSize(|mem|) && p % 8 == 0 && OffersFrames(actions)
    requires var s := Run(Init(mem, p), actions); s.head <= q < s.tail
    ensures var s := Run(Init(mem, p), actions);
      Step(s, a).mem[Off(|mem|, q)] == s.mem[Off(|mem|, q)]
  {
    var s := Run(Init(mem, p), actions);
    InitInv(mem, p);
    RunKeepsInv(Init(mem, p), actions);
    if a.Produce? {
      ProducerStepGoesOn(s.mem, s.head, s.tail, Live(s), s.producer);
    }
  }

  /** While the consumer looks at a view it stays that frame: however the producer interleaves,
      the bytes under it are those of the oldest frame not yet taken. */
  lemma ViewIsStable(mem: seq<byte>, p: nat, actions: seq<Action>)
    requires ValidSize(|mem|) && p % 8 == 0 && OffersFrames(actions)
    requires Run(Init(mem, p), actions).consumer.Viewing?
    ensures var s := Run(Init(mem, p), actions);
      && |s.popped| < |s.published|
      && Off(|mem|, s.head) + s.consumer.n <= |mem|
      && s.mem[Off(|mem|, s.head)..Off(|mem|, s.head) + s.consumer.n] == s.published[|s.popped|]
  {
    var s := Run(Init(mem, p), actions);
    InitInv(mem, p);
    RunKeepsInv(Init(mem, p), actions);
    assert Placed(s.mem, s.head, Live(s)[0]);
  }
}
