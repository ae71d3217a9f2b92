/** The frames of the native protocol (clients/python/modb_client.py):
    a little-endian u32 length, which counts the type byte and the payload, then both. */
module Frames {
  import opened Bytes

  const MAX_FRAME_BYTES: nat := 16 * 1024 * 1024

  /** A frame a peer accepts: the length field says how many bytes follow it. */
  ghost predicate WellFormed(f: seq<byte>) {
    |f| >= 5 && U32At(f, 0) == |f| - 4 && |f| - 4 <= MAX_FRAME_BYTES
  }

  /** `_frame`: the frame that carries one message. */
  function Frame(mtype: byte, payload: seq<byte>): seq<byte> {
    Le(|payload| + 1, 4) + [mtype] + payload
  }

  /** Every message within the protocol's limit gets a well-formed frame that holds it. */
  lemma FrameIsWellFormed(mtype: byte, payload: seq<byte>)
    requires |payload| + 1 <= MAX_FRAME_BYTES
    ensures WellFormed(Frame(mtype, payload))
    ensures Frame(mtype, payload)[4] == mtype && Frame(mtype, payload)[5..] == payload
  {
    Pow256Four();
    FromLeOfLe(|payload| + 1, 4);
    U32AtIsFromLe(Frame(mtype, payload), 0);
    assert Frame(mtype, payload)[0..4] == Le(|payload| + 1, 4);
  }
}
