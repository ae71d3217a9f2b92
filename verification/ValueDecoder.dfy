/** `_dec` and `decode_value` of clients/python/modb_client.py, and what they accept. Slicing past
    the end of the buffer truncates silently in Python, so a length is only caught later, when the
    position no longer meets the end of the buffer. */
module ValueDecoder {
  import opened Bytes
  import opened Values

  datatype Fault = TooDeep | OutOfRange | UnknownTag | UnknownVersion | TrailingBytes

  datatype Decoded<T> = Ok(value: T, next: nat) | Err(fault: Fault)

  const MAX_DEPTH: nat := 64

  /** `buf[a:a + n]`, which stops at the end of the buffer without a word. */
  function Slice(buf: seq<byte>, a: nat, n: nat): (s: seq<byte>)
    ensures a + n <= |buf| ==> s == buf[a..a + n]
  {
    if a >= |buf| then [] else if a + n <= |buf| then buf[a..a + n] else buf[a..]
  }

  /** `struct.unpack_from("<I", buf, pos)`, which raises when 4 bytes are not there. */
  function Length(buf: seq<byte>, pos: nat): (r: Decoded<nat>)
    ensures r.Ok? ==> r.next == pos + 4 <= |buf|
  {
    if pos + 4 <= |buf| then Ok(FromLe(buf[pos..pos + 4]), pos + 4) else Err(OutOfRange)
  }

  function Dec(buf: seq<byte>, pos: nat, depth: nat): (r: Decoded<Value>)
    ensures r.Ok? ==> r.next > pos
    decreases MAX_DEPTH + 1 - depth, 0
  {
    if depth > MAX_DEPTH then Err(TooDeep)
    else if pos >= |buf| then Err(OutOfRange)
    else
      var tag, p := buf[pos], pos + 1;
      if tag == 0 then Ok(Null, p)
      else if tag == 1 then
        if p >= |buf| then Err(OutOfRange) else Ok(Bool(buf[p] != 0), p + 1)
      else if tag == 2 then
        if p + 8 > |buf| then Err(OutOfRange) else Ok(Int(UnpackInt(buf[p..p + 8])), p + 8)
      else if tag == 3 then
        if p + 8 > |buf| then Err(OutOfRange) else Ok(Float(buf[p..p + 8]), p + 8)
      else if tag == 4 then
        var n := Length(buf, p);
        if n.Err? then Err(n.fault) else Ok(Str(Slice(buf, n.next, n.value)), n.next + n.value)
      else if tag == 5 then
        if p + 8 > |buf| then Err(OutOfRange) else Ok(Id(FromLe(buf[p..p + 8])), p + 8)
      else if tag == 6 then
        var n := Length(buf, p);
        if n.Err? then Err(n.fault)
        else
          var items := DecItems(buf, n.next, n.value, depth + 1);
          if items.Err? then Err(items.fault) else Ok(List(items.value), items.next)
      else if tag == 7 then
        var n := Length(buf, p);
        if n.Err? then Err(n.fault)
        else
          var entries := DecEntries(buf, n.next, n.value, depth + 1, []);
          if entries.Err? then Err(entries.fault) else Ok(Dict(entries.value), entries.next)
      else Err(UnknownTag)
  }

  /** The loop over the n items of a list. */
  function DecItems(buf: seq<byte>, pos: nat, n: nat, depth: nat): (r: Decoded<seq<Value>>)
    requires depth <= MAX_DEPTH + 1
    ensures r.Ok? ==> r.next >= pos
    decreases MAX_DEPTH + 1 - depth, n + 1
  {
    if n == 0 then Ok([], pos)
    else
      var v := Dec(buf, pos, depth);
      if v.Err? then Err(v.fault)
      else
        var rest := DecItems(buf, v.next, n - 1, depth);
        if rest.Err? then rest else Ok([v.value] + rest.value, rest.next)
  }

  /** `m[k] = v`: a key that is there already keeps its place and takes the new value. */
  function Put(m: seq<Entry>, key: seq<byte>, v: Value): seq<Entry> {
    if m == [] then [Entry(key, v)]
    else if m[0].key == key then [Entry(key, v)] + m[1..]
    else [m[0]] + Put(m[1..], key, v)
  }

  /** A key and the value behind it. */
  function DecEntry(buf: seq<byte>, pos: nat, depth: nat): (r: Decoded<Entry>)
    requires depth <= MAX_DEPTH + 1
    ensures r.Ok? ==> r.next > pos
    decreases MAX_DEPTH + 1 - depth, 1
  {
    var kn := Length(buf, pos);
    if kn.Err? then Err(kn.fault)
    else
      var v := Dec(buf, kn.next + kn.value, depth);
      if v.Err? then Err(v.fault) else Ok(Entry(Slice(buf, kn.next, kn.value), v.value), v.next)
  }

  /** The loop over the n entries of a dict, with m built so far. */
  function DecEntries(buf: seq<byte>, pos: nat, n: nat, depth: nat, m: seq<Entry>): (r: Decoded<seq<Entry>>)
    requires depth <= MAX_DEPTH + 1
    ensures r.Ok? ==> r.next >= pos
    decreases MAX_DEPTH + 1 - depth, n + 1
  {
    if n == 0 then Ok(m, pos)
    else
      var e := DecEntry(buf, pos, depth);
      if e.Err? then Err(e.fault)
      else DecEntries(buf, e.next, n - 1, depth, Put(m, e.value.key, e.value.value))
  }

  /** `decode_value`. */
  function DecodeValue(buf: seq<byte>): Decoded<Value> {
    if buf == [] then Ok(Null, 0)
    else if buf[0] != 1 then Err(UnknownVersion)
    else
      var v := Dec(buf, 1, 0);
      if v.Err? then v
      else if v.next != |buf| then Err(TrailingBytes)
      else v
  }

  /** `encode_value`. */
  function EncodeValue(v: Value): seq<byte>
    requires Encodable(v)
  {
    [1] + Enc(v)
  }

  // ----- the trees a buffer can spell -----

  /** One tree of the wire format: every flag byte, and repeated keys, are spelled out. */
  datatype Node =
    | NNull
    | NBool(flag: byte)
    | NInt(n: int)
    | NFloat(bits: Double)
    | NStr(s: seq<byte>)
    | NId(id: nat)
    | NList(items: seq<Node>)
    | NDict(pairs: seq<Pair>)

  datatype Pair = Pair(key: seq<byte>, node: Node)

  predicate Fits(n: Node) {
    match n
    case NInt(i) => -TWO63 <= i < TWO63
    case NStr(s) => |s| < TWO32
    case NId(id) => id < TWO64
    case NList(items) => |items| < TWO32 && AllFit(items)
    case NDict(pairs) => |pairs| < TWO32 && PairsFit(pairs)
    case _ => true
  }

  predicate AllFit(items: seq<Node>) {
    forall i :: 0 <= i < |items| ==> Fits(items[i])
  }

  predicate PairsFit(pairs: seq<Pair>) {
    forall i :: 0 <= i < |pairs| ==> |pairs[i].key| < TWO32 && Fits(pairs[i].node)
  }

  /** Nesting fits into d more levels. */
  predicate Within(n: Node, d: int) {
    d >= 0 &&
    match n
    case NList(items) => AllWithin(items, d - 1)
    case NDict(pairs) => PairsWithin(pairs, d - 1)
    case _ => true
  }

  predicate AllWithin(items: seq<Node>, d: int) {
    forall i :: 0 <= i < |items| ==> Within(items[i], d)
  }

  predicate PairsWithin(pairs: seq<Pair>, d: int) {
    forall i :: 0 <= i < |pairs| ==> Within(pairs[i].node, d)
  }

  function Spell(n: Node): (b: seq<byte>)
    requires Fits(n)
    ensures b != []
  {
    match n
    case NNull => [0]
    case NBool(flag) => [1, flag]
    case NInt(i) => [2] + PackInt(i)
    case NFloat(bits) => [3] + bits
    case NStr(s) => [4] + EncKey(s)
    case NId(id) => [5] + Le(id, 8)
    case NList(items) => [6] + Le(|items|, 4) + SpellAll(items)
    case NDict(pairs) => [7] + Le(|pairs|, 4) + SpellPairs(pairs)
  }

  function SpellAll(items: seq<Node>): seq<byte>
    requires AllFit(items)
  {
    if items == [] then [] else Spell(items[0]) + SpellAll(items[1..])
  }

  function SpellPairs(pairs: seq<Pair>): seq<byte>
    requires PairsFit(pairs)
  {
    if pairs == [] then []
    else EncKey(pairs[0].key) + Spell(pairs[0].node) + SpellPairs(pairs[1..])
  }

  /** The value a tree stands for. */
  function Meaning(n: Node): Value {
    match n
    case NNull => Null
    case NBool(flag) => Bool(flag != 0)
    case NInt(i) => Int(i)
    case NFloat(bits) => Float(bits)
    case NStr(s) => Str(s)
    case NId(id) => Id(id)
    case NList(items) => List(MeaningAll(items))
    case NDict(pairs) => Dict(MeaningPairs(pairs, []))
  }

  function MeaningAll(items: seq<Node>): seq<Value> {
    if items == [] then [] else [Meaning(items[0])] + MeaningAll(items[1..])
  }

  function MeaningPairs(pairs: seq<Pair>, m: seq<Entry>): seq<Entry> {
    if pairs == [] then m
    else MeaningPairs(pairs[1..], Put(m, pairs[0].key, Meaning(pairs[0].node)))
  }
}
