/** Receiving frames from a socket (clients/python/modb_client.py, `_recv_exact` and
    `_recv_frame`): the kernel may split the byte stream anywhere. */
module FrameStream {
  import opened Bytes
  import opened Text
  import opened Frames

  datatype Message = Message(mtype: byte, payload: seq<byte>)

  datatype Received = Got(m: Message) | Closed | BadLength

  /** What one `_recv_frame` makes of the bytes to come. */
  function NextFrame(s: seq<byte>): Received {
    if |s| < 4 then Closed
    else
      var length := FromLe(s[..4]);
      if length == 0 || length > MAX_FRAME_BYTES then BadLength
      else if |s| < 4 + length then Closed
      else Got(Message(s[4], s[5..4 + length]))
  }

  /** The bytes that are left to come after it. */
  function AfterFrame(s: seq<byte>): (rest: seq<byte>)
    ensures NextFrame(s).Got? ==> |rest| < |s|
  {
    match NextFrame(s)
    case Got(_) => s[4 + FromLe(s[..4])..]
    case BadLength => s[4..]
    case Closed => []
  }

  /** The length field decides: 0 and more than 16 MiB are refused at once, and any other length is
      waited for. */
  lemma LengthDecides(n: nat, mtype: byte, payload: seq<byte>)
    requires n < 0x1_0000_0000
    ensures NextFrame(Le(n, 4) + [mtype] + payload)
         == if n == 0 || n > 16777216 then BadLength
            else if |payload| + 1 < n then Closed
            else Got(Message(mtype, payload[..n - 1]))
  {
    var s := Le(n, 4) + [mtype] + payload;
    Pow256Four();
    FromLeOfLe(n, 4);
    assert s[..4] == Le(n, 4);
    if 0 < n <= |payload| + 1 {
      assert s[5..4 + n] == payload[..n - 1];
    }
  }

  /** All messages up to the first failure. */
  function Messages(s: seq<byte>): seq<Message>
    decreases |s|
  {
    var r := NextFrame(s);
    if r.Got? then [r.m] + Messages(AfterFrame(s)) else []
  }

  /** Why receiving stopped. */
  function Ending(s: seq<byte>): Received
    decreases |s|
  {
    var r := NextFrame(s);
    if r.Got? then Ending(AfterFrame(s)) else r
  }

  predicate Sendable(ms: seq<Message>) {
    forall i :: 0 <= i < |ms| ==> |ms[i].payload| + 1 <= MAX_FRAME_BYTES
  }

  /** The bytes that sending the messages one after another puts on the wire. */
  function Stream(ms: seq<Message>): seq<byte> {
    if ms == [] then [] else Frame(ms[0].mtype, ms[0].payload) + Stream(ms[1..])
  }

  lemma FrameIsNext(m: Message, rest: seq<byte>)
    requires |m.payload| + 1 <= MAX_FRAME_BYTES
    ensures NextFrame(Frame(m.mtype, m.payload) + rest) == Got(m)
    ensures AfterFrame(Frame(m.mtype, m.payload) + rest) == rest
  {
    var f := Frame(m.mtype, m.payload);
    var s := f + rest;
    FrameIsWellFormed(m.mtype, m.payload);
    U32AtIsFromLe(f, 0);
    assert s[..4] == f[0..4];
    assert s[5..|f|] == f[5..] && s[|f|..] == rest;
  }

  lemma CutFrameIsNotTaken(m: Message, k: nat)
    requires |m.payload| + 1 <= MAX_FRAME_BYTES && k < |Frame(m.mtype, m.payload)|
    ensures NextFrame(Frame(m.mtype, m.payload)[..k]) == Closed
  {
    var f := Frame(m.mtype, m.payload);
    FrameIsWellFormed(m.mtype, m.payload);
    U32AtIsFromLe(f, 0);
    if k >= 4 {
      assert f[..k][..4] == f[0..4];
    }
  }

  /** How many of the messages lie wholly within the first k bytes of their stream. */
  function WholeWithin(ms: seq<Message>, k: nat): (n: nat)
    ensures n <= |ms|
  {
    if ms == [] || k < |Frame(ms[0].mtype, ms[0].payload)| then 0
    else 1 + WholeWithin(ms[1..], k - |Frame(ms[0].mtype, ms[0].payload)|)
  }

  lemma NoBytes()
    ensures Messages([]) == [] && Ending([]) == Closed
  {
  }

  /** Wherever the connection breaks, the receiver has taken exactly the messages that were sent
      whole, in order and unchanged, and then reports a closed connection, never a bad frame. */
  lemma {:induction false} BrokenStream(ms: seq<Message>, k: nat)
    requires Sendable(ms) && k <= |Stream(ms)|
    ensures Messages(Stream(ms)[..k]) == ms[..WholeWithin(ms, k)]
    ensures Ending(Stream(ms)[..k]) == Closed
    decreases |ms|
  {
    hide Frame, NextFrame, AfterFrame;
    var s := Stream(ms)[..k];
    if ms == [] {
      NoBytes();
    } else {
      var f := Frame(ms[0].mtype, ms[0].payload);
      if k < |f| {
        assert s == f[..k];
        CutFrameIsNotTaken(ms[0], k);
      } else {
        var rest := Stream(ms[1..])[..k - |f|];
        assert s == f + rest;
        FrameIsNext(ms[0], rest);
        BrokenStream(ms[1..], k - |f|);
        assert ms[..WholeWithin(ms, k)] == [ms[0]] + ms[1..][..WholeWithin(ms[1..], k - |f|)];
      }
    }
  }

  /** An unbroken stream delivers every message. */
  lemma {:induction false} WholeStream(ms: seq<Message>)
    requires Sendable(ms)
    ensures Messages(Stream(ms)) == ms
  {
    hide Frame, NextFrame, AfterFrame;
    if ms == [] {
      NoBytes();
    } else {
      FrameIsNext(ms[0], Stream(ms[1..]));
      WholeStream(ms[1..]);
    }
  }

  /** The receiving end: bytes that will still arrive before the peer closes. */
  class Socket {
    var incoming: seq<byte>

    constructor (incoming: seq<byte>)
      ensures this.incoming == incoming
    {
      this.incoming := incoming;
    }

    /** `recv(n)`: some bytes, at most n, in any amount; none only at the end of the stream. */
    method Recv(n: nat) returns (c: seq<byte>)
      requires n > 0
      modifies this
      ensures old(incoming) == c + incoming && |c| <= n
      ensures c == [] <==> old(incoming) == []
    {
      if incoming == [] {
        return [];
      }
      var k :| 1 <= k <= n && k <= |incoming|;
      c := incoming[..k];
      incoming := incoming[k..];
    }

    /** `_recv_exact`: the next n bytes, however they are split, or None when the peer closed. */
    method RecvExact(n: nat) returns (r: Option<seq<byte>>)
      modifies this
      ensures r.Some? <==> |old(incoming)| >= n
      ensures r.Some? ==> r.value == old(incoming)[..n] && incoming == old(incoming)[n..]
      ensures r.None? ==> incoming == []
    {
      var got := [];
      while |got| < n
        invariant |got| <= n && old(incoming) == got + incoming
        decreases n - |got|
      {
        var c := Recv(n - |got|);
        if c == [] {
          return None;
        }
        got := got + c;
      }
      return Some(got);
    }

    /** `_recv_frame`. */
    method RecvFrame() returns (r: Received)
      modifies this
      ensures r == NextFrame(old(incoming)) && incoming == AfterFrame(old(incoming))
    {
      ghost var s := incoming;
      var head := RecvExact(4);
      if head.None? {
        return Closed;
      }
      var length := FromLe(head.value);
      if length == 0 || length > MAX_FRAME_BYTES {
        return BadLength;
      }
      var data := RecvExact(length);
      if data.None? {
        return Closed;
      }
      assert data.value[0] == s[4] && data.value[1..] == s[5..4 + length] && incoming == s[4 + length..];
      return Got(Message(data.value[0], data.value[1..]));
    }
  }

  /** Repeated `_recv_frame` on a socket, until it raises. */
  method ReceiveAll(socket: Socket) returns (ms: seq<Message>, ending: Received)
    modifies socket
    ensures ms == Messages(old(socket.incoming)) && ending == Ending(old(socket.incoming))
  {
    ms := [];
    assert Messages(socket.incoming) == ms + Messages(socket.incoming);
    while true
      invariant Messages(old(socket.incoming)) == ms + Messages(socket.incoming)
      invariant Ending(old(socket.incoming)) == Ending(socket.incoming)
      decreases |socket.incoming|
    {
      ghost var before := socket.incoming;
      ending := socket.RecvFrame();
      if !ending.Got? {
        assert Messages(before) == [];
        return;
      }
      Regroup(ms, [ending.m], Messages(socket.incoming));
      ms := ms + [ending.m];
    }
  }
}
