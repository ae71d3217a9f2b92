/** The `Value` codec of clients/python/modb_client.py: a version byte and a recursive tagged
    encoding. Floats are their 8 bytes and text its UTF-8 bytes. */
module Values {
  import opened Bytes
  import opened Text

  datatype Value =
    | Null
    | Bool(b: bool)
    | Int(n: int)
    | Float(bits: Double)
    | Str(s: seq<byte>)
    | Id(id: int)
    | List(items: seq<Value>)
    | Dict(entries: seq<Entry>)

  /** Python dicts keep the order of insertion; the keys of a Dict are distinct (DistinctlyKeyed). */
  datatype Entry = Entry(key: seq<byte>, value: Value)

  /** The 8 bytes of a float. */
  type Double = b: seq<byte> | |b| == 8 witness [0, 0, 0, 0, 0, 0, 0, 0]

  const TWO32: int := 0x1_0000_0000
  const TWO63: int := 0x8000_0000_0000_0000
  const TWO64: int := 0x1_0000_0000_0000_0000

  /** `struct.pack("<q", n)`. */
  function PackInt(n: int): (b: seq<byte>)
    requires -TWO63 <= n < TWO63
    ensures |b| == 8
  {
    Le(if n < 0 then n + TWO64 else n, 8)
  }

  function UnpackInt(b: seq<byte>): int {
    var n := FromLe(b);
    if n >= TWO63 then n - TWO64 else n
  }

  /** What `struct.pack` and the length fields can carry. */
  predicate Encodable(v: Value) {
    match v
    case Int(n) => -TWO63 <= n < TWO63
    case Str(s) => |s| < TWO32
    case Id(n) => 0 <= n < TWO64
    case List(items) => |items| < TWO32 && forall i :: 0 <= i < |items| ==> Encodable(items[i])
    case Dict(entries) =>
      |entries| < TWO32
      && forall i :: 0 <= i < |entries| ==> |entries[i].key| < TWO32 && Encodable(entries[i].value)
    case _ => true
  }

  function Enc(v: Value): seq<byte>
    requires Encodable(v)
  {
    match v
    case Null => [0]
    case Bool(b) => [1, if b then 1 else 0]
    case Int(n) => [2] + PackInt(n)
    case Float(bits) => [3] + bits
    case Str(s) => [4] + Le(|s|, 4) + s
    case Id(n) => [5] + Le(n, 8)
    case List(items) => [6] + Le(|items|, 4) + EncItems(items)
    case Dict(entries) => [7] + Le(|entries|, 4) + EncEntries(entries)
  }

  predicate AllEncodable(items: seq<Value>) {
    forall i :: 0 <= i < |items| ==> Encodable(items[i])
  }

  predicate EntriesEncodable(entries: seq<Entry>) {
    forall i :: 0 <= i < |entries| ==> |entries[i].key| < TWO32 && Encodable(entries[i].value)
  }

  function EncItems(items: seq<Value>): seq<byte>
    requires AllEncodable(items)
  {
    if items == [] then [] else Enc(items[0]) + EncItems(items[1..])
  }

  function EncKey(key: seq<byte>): seq<byte> {
    Le(|key|, 4) + key
  }

  function EncEntries(entries: seq<Entry>): seq<byte>
    requires EntriesEncodable(entries)
  {
    if entries == [] then []
    else EncKey(entries[0].key) + Enc(entries[0].value) + EncEntries(entries[1..])
  }

  lemma {:induction false} EncItemsSnoc(items: seq<Value>, v: Value)
    requires AllEncodable(items) && Encodable(v)
    ensures AllEncodable(items + [v]) && EncItems(items + [v]) == EncItems(items) + Enc(v)
  {
    if items != [] {
      EncItemsSnoc(items[1..], v);
      assert (items + [v])[1..] == items[1..] + [v];
    }
  }

  lemma {:induction false} EncEntriesSnoc(entries: seq<Entry>, e: Entry)
    requires EntriesEncodable(entries) && |e.key| < TWO32 && Encodable(e.value)
    ensures EntriesEncodable(entries + [e])
    ensures EncEntries(entries + [e]) == EncEntries(entries) + (EncKey(e.key) + Enc(e.value))
  {
    hide Enc, EncKey, Encodable;
    if entries != [] {
      EncEntriesSnoc(entries[1..], e);
      assert (entries + [e])[1..] == entries[1..] + [e];
    }
  }

  /** The bytearray that `_enc` appends to. */
  class Buffer {
    var bytes: seq<byte>

    constructor (bytes: seq<byte>)
      ensures this.bytes == bytes
    {
      this.bytes := bytes;
    }
  }

  /** `_enc`: appends the encoding, or raises part of the way when a number does not fit. */
  method EncodeInto(v: Value, out: Buffer) returns (ok: bool)
    modifies out
    ensures ok == Encodable(v)
    ensures ok ==> out.bytes == old(out.bytes) + Enc(v)
    decreases v
  {
    ok := true;
    match v {
    case Null =>
      out.bytes := out.bytes + [0];
    case Bool(b) =>
      out.bytes := out.bytes + [1, if b then 1 else 0];
    case Id(n) =>
      out.bytes := out.bytes + [5];
      if !(0 <= n < TWO64) {
        return false;
      }
      Regroup(old(out.bytes), [5], Le(n, 8));
      out.bytes := out.bytes + Le(n, 8);
    case Int(n) =>
      out.bytes := out.bytes + [2];
      if !(-TWO63 <= n < TWO63) {
        return false;
      }
      Regroup(old(out.bytes), [2], PackInt(n));
      out.bytes := out.bytes + PackInt(n);
    case Float(bits) =>
      out.bytes := out.bytes + [3];
      Regroup(old(out.bytes), [3], bits);
      out.bytes := out.bytes + bits;
    case Str(s) =>
      out.bytes := out.bytes + [4];
      if |s| >= TWO32 {
        return false;
      }
      Regroup(old(out.bytes), [4], Le(|s|, 4) + s);
      Regroup([4], Le(|s|, 4), s);
      out.bytes := out.bytes + (Le(|s|, 4) + s);
    case List(items) =>
      out.bytes := out.bytes + [6];
      if |items| >= TWO32 {
        return false;
      }
      Regroup(old(out.bytes), [6], Le(|items|, 4));
      out.bytes := out.bytes + Le(|items|, 4);
      ok := EncodeItems(items, out);
      if ok {
        Regroup(old(out.bytes), [6] + Le(|items|, 4), EncItems(items));
      }
    case Dict(entries) =>
      out.bytes := out.bytes + [7];
      if |entries| >= TWO32 {
        return false;
      }
      Regroup(old(out.bytes), [7], Le(|entries|, 4));
      out.bytes := out.bytes + Le(|entries|, 4);
      ok := EncodeEntries(entries, out);
      if ok {
        Regroup(old(out.bytes), [7] + Le(|entries|, 4), EncEntries(entries));
      }
    }
  }

  /** The loop over a list. */
  method EncodeItems(items: seq<Value>, out: Buffer) returns (ok: bool)
    modifies out
    ensures ok == AllEncodable(items)
    ensures ok ==> out.bytes == old(out.bytes) + EncItems(items)
    decreases items
  {
    for i := 0 to |items|
      invariant AllEncodable(items[..i])
      invariant out.bytes == old(out.bytes) + EncItems(items[..i])
    {
      ok := EncodeInto(items[i], out);
      if !ok {
        return;
      }
      Regroup(old(out.bytes), EncItems(items[..i]), Enc(items[i]));
      EncItemsSnoc(items[..i], items[i]);
      assert items[..i + 1] == items[..i] + [items[i]];
    }
    assert items[..|items|] == items;
    ok := true;
  }

  /** The loop over a dict. */
  method EncodeEntries(entries: seq<Entry>, out: Buffer) returns (ok: bool)
    modifies out
    ensures ok == EntriesEncodable(entries)
    ensures ok ==> out.bytes == old(out.bytes) + EncEntries(entries)
    decreases entries
  {
    for i := 0 to |entries|
      invariant EntriesEncodable(entries[..i])
      invariant out.bytes == old(out.bytes) + EncEntries(entries[..i])
    {
      var Entry(key, value) := entries[i];
      ghost var before := out.bytes;
      if |key| >= TWO32 {
        return false;
      }
      out.bytes := out.bytes + EncKey(key);
      ok := EncodeInto(value, out);
      if !ok {
        return;
      }
      Regroup(before, EncKey(key), Enc(value));
      Regroup(old(out.bytes), EncEntries(entries[..i]), EncKey(key) + Enc(value));
      EncEntriesSnoc(entries[..i], entries[i]);
      assert entries[..i + 1] == entries[..i] + [entries[i]];
    }
    assert entries[..|entries|] == entries;
    ok := true;
  }
}
