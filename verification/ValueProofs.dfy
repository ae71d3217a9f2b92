/** What `decode_value` accepts, exactly, and that it undoes `encode_value`. */
module ValueProofs {
  import opened Bytes
  import opened Text
  import opened Values
  import opened ValueDecoder

  lemma LengthIsRead(n: nat, buf: seq<byte>, pos: nat)
    requires n < TWO32 && At(buf, pos, Le(n, 4))
    ensures Length(buf, pos) == Ok(n, pos + 4)
  {
    Pow256Four();
    FromLeOfLe(n, 4);
  }

  lemma KeyIsRead(s: seq<byte>, buf: seq<byte>, pos: nat)
    requires |s| < TWO32 && At(buf, pos, EncKey(s))
    ensures Length(buf, pos) == Ok(|s|, pos + 4) && Slice(buf, pos + 4, |s|) == s
    ensures pos + 4 + |s| == pos + |EncKey(s)|
  {
    AtSplit(buf, pos, Le(|s|, 4), s);
    LengthIsRead(|s|, buf, pos);
  }

  lemma IntIsRead(i: int)
    requires -TWO63 <= i < TWO63
    ensures UnpackInt(PackInt(i)) == i
  {
    Pow256Eight();
    FromLeOfLe(if i < 0 then i + TWO64 else i, 8);
  }

  lemma IdIsRead(n: nat)
    requires n < TWO64
    ensures FromLe(Le(n, 8)) == n
  {
    Pow256Eight();
    FromLeOfLe(n, 8);
  }

  lemma TagIsRead(buf: seq<byte>, pos: nat, tag: byte, rest: seq<byte>)
    requires At(buf, pos, [tag] + rest)
    ensures pos < |buf| && buf[pos] == tag && At(buf, pos + 1, rest)
  {
    AtSplit(buf, pos, [tag], rest);
    assert buf[pos] == buf[pos..pos + 1][0];
  }

  // ----- a spelled tree is decoded, whatever follows -----

  lemma NumberIsDecoded(n: Node, buf: seq<byte>, pos: nat, depth: nat)
    requires n.NInt? || n.NFloat? || n.NId?
    requires Fits(n) && depth <= MAX_DEPTH && At(buf, pos, Spell(n))
    ensures Dec(buf, pos, depth) == Ok(Meaning(n), pos + |Spell(n)|)
  {
    match n
    case NInt(i) =>
      TagIsRead(buf, pos, 2, PackInt(i));
      IntIsRead(i);
    case NFloat(bits) => TagIsRead(buf, pos, 3, bits);
    case NId(id) =>
      TagIsRead(buf, pos, 5, Le(id, 8));
      IdIsRead(id);
  }

  lemma LeafIsDecoded(n: Node, buf: seq<byte>, pos: nat, depth: nat)
    requires n.NNull? || n.NBool? || n.NStr?
    requires Fits(n) && depth <= MAX_DEPTH && At(buf, pos, Spell(n))
    ensures Dec(buf, pos, depth) == Ok(Meaning(n), pos + |Spell(n)|)
  {
    match n
    case NNull => TagIsRead(buf, pos, 0, []);
    case NBool(flag) =>
      assert Spell(n) == [1] + [flag];
      TagIsRead(buf, pos, 1, [flag]);
      TagIsRead(buf, pos + 1, flag, []);
    case NStr(s) =>
      TagIsRead(buf, pos, 4, EncKey(s));
      KeyIsRead(s, buf, pos + 1);
  }

  lemma {:induction false} TreeIsDecoded(n: Node, buf: seq<byte>, pos: nat, depth: nat)
    requires Fits(n) && Within(n, MAX_DEPTH - depth) && At(buf, pos, Spell(n))
    ensures Dec(buf, pos, depth) == Ok(Meaning(n), pos + |Spell(n)|)
    decreases n, 0
  {
    match n
    case NList(items) => ListIsDecoded(items, buf, pos, pos + |Spell(n)|, depth);
    case NDict(pairs) => DictIsDecoded(pairs, buf, pos, pos + |Spell(n)|, depth);
    case NInt(i) => NumberIsDecoded(n, buf, pos, depth);
    case NFloat(bits) => NumberIsDecoded(n, buf, pos, depth);
    case NId(id) => NumberIsDecoded(n, buf, pos, depth);
    case NNull => LeafIsDecoded(n, buf, pos, depth);
    case NBool(flag) => LeafIsDecoded(n, buf, pos, depth);
    case NStr(s) => LeafIsDecoded(n, buf, pos, depth);
  }

  lemma {:induction false} ListIsDecoded(items: seq<Node>, buf: seq<byte>, pos: nat, end: nat, depth: nat)
    requires |items| < TWO32 && AllFit(items) && AllWithin(items, MAX_DEPTH - depth - 1) && depth <= MAX_DEPTH
    requires At(buf, pos, [6] + Le(|items|, 4) + SpellAll(items)) && end == pos + 5 + |SpellAll(items)|
    ensures Dec(buf, pos, depth) == Ok(List(MeaningAll(items)), end)
    decreases items, 2
  {
    CountIsRead(6, |items|, SpellAll(items), buf, pos);
    ItemsAreDecoded(items, buf, pos + 5, end, depth + 1);
  }

  lemma {:induction false} DictIsDecoded(pairs: seq<Pair>, buf: seq<byte>, pos: nat, end: nat, depth: nat)
    requires |pairs| < TWO32 && PairsFit(pairs) && PairsWithin(pairs, MAX_DEPTH - depth - 1) && depth <= MAX_DEPTH
    requires At(buf, pos, [7] + Le(|pairs|, 4) + SpellPairs(pairs)) && end == pos + 5 + |SpellPairs(pairs)|
    ensures Dec(buf, pos, depth) == Ok(Dict(MeaningPairs(pairs, [])), end)
    decreases pairs, 2
  {
    CountIsRead(7, |pairs|, SpellPairs(pairs), buf, pos);
    PairsAreDecoded(pairs, buf, pos + 5, end, depth + 1, []);
  }

  lemma CountIsRead(tag: byte, n: nat, rest: seq<byte>, buf: seq<byte>, pos: nat)
    requires n < TWO32 && At(buf, pos, [tag] + Le(n, 4) + rest)
    ensures pos < |buf| && buf[pos] == tag && Length(buf, pos + 1) == Ok(n, pos + 5)
    ensures At(buf, pos + 5, rest)
  {
    AtSplit(buf, pos, [tag] + Le(n, 4), rest);
    TagIsRead(buf, pos, tag, Le(n, 4));
    LengthIsRead(n, buf, pos + 1);
  }

  lemma ItemsSplit(items: seq<Node>, buf: seq<byte>, pos: nat, next: nat, end: nat)
    requires items != [] && AllFit(items) && At(buf, pos, SpellAll(items))
    requires next == pos + |Spell(items[0])| && end == pos + |SpellAll(items)|
    ensures At(buf, pos, Spell(items[0])) && At(buf, next, SpellAll(items[1..]))
    ensures end == next + |SpellAll(items[1..])|
  {
    AtSplit(buf, pos, Spell(items[0]), SpellAll(items[1..]));
  }

  lemma {:induction false} ItemsAreDecoded(items: seq<Node>, buf: seq<byte>, pos: nat, end: nat, depth: nat)
    requires AllFit(items) && AllWithin(items, MAX_DEPTH - depth) && At(buf, pos, SpellAll(items))
    requires depth <= MAX_DEPTH + 1 && end == pos + |SpellAll(items)|
    ensures DecItems(buf, pos, |items|, depth) == Ok(MeaningAll(items), end)
    decreases items, 1
  {
    if items != [] {
      hide Spell, Fits, At, SpellAll, Dec;
      var next := pos + |Spell(items[0])|;
      ItemsSplit(items, buf, pos, next, end);
      TreeIsDecoded(items[0], buf, pos, depth);
      ItemsAreDecoded(items[1..], buf, next, end, depth);
    }
  }

  lemma {:induction false} PairIsDecoded(pair: Pair, buf: seq<byte>, pos: nat, p: nat, next: nat, depth: nat)
    requires |pair.key| < TWO32 && Fits(pair.node) && depth <= MAX_DEPTH + 1
    requires Within(pair.node, MAX_DEPTH - depth)
    requires At(buf, pos, EncKey(pair.key)) && At(buf, p, Spell(pair.node))
    requires p == pos + |EncKey(pair.key)| && next == p + |Spell(pair.node)|
    ensures DecEntry(buf, pos, depth) == Ok(Entry(pair.key, Meaning(pair.node)), next)
    decreases pair
  {
    hide Spell, Fits, Within, At, EncKey, Dec;
    KeyIsRead(pair.key, buf, pos);
    TreeIsDecoded(pair.node, buf, p, depth);
  }

  lemma {:induction false} PairsAreDecoded(pairs: seq<Pair>, buf: seq<byte>, pos: nat, end: nat, depth: nat,
                                           m: seq<Entry>)
    requires PairsFit(pairs) && PairsWithin(pairs, MAX_DEPTH - depth) && At(buf, pos, SpellPairs(pairs))
    requires depth <= MAX_DEPTH + 1 && end == pos + |SpellPairs(pairs)|
    ensures DecEntries(buf, pos, |pairs|, depth, m) == Ok(MeaningPairs(pairs, m), end)
    decreases pairs, 1
  {
    if pairs != [] {
      var p := pos + |EncKey(pairs[0].key)|;
      var next := p + |Spell(pairs[0].node)|;
      PairsSplit(pairs, buf, pos, p, next, end);
      PairIsDecoded(pairs[0], buf, pos, p, next, depth);
      PairsAreDecoded(pairs[1..], buf, next, end, depth, Put(m, pairs[0].key, Meaning(pairs[0].node)));
    }
  }

  lemma PairsSplit(pairs: seq<Pair>, buf: seq<byte>, pos: nat, p: nat, next: nat, end: nat)
    requires pairs != [] && PairsFit(pairs) && At(buf, pos, SpellPairs(pairs))
    requires p == pos + |EncKey(pairs[0].key)| && next == p + |Spell(pairs[0].node)|
    requires end == pos + |SpellPairs(pairs)|
    ensures At(buf, pos, EncKey(pairs[0].key)) && At(buf, p, Spell(pairs[0].node))
    ensures At(buf, next, SpellPairs(pairs[1..])) && end == next + |SpellPairs(pairs[1..])|
  {
    hide Spell, Fits, EncKey, At;
    SplitBoth(buf, pos, EncKey(pairs[0].key), Spell(pairs[0].node), SpellPairs(pairs[1..]));
  }

  lemma SplitBoth(buf: seq<byte>, pos: nat, a: seq<byte>, b: seq<byte>, c: seq<byte>)
    requires At(buf, pos, a + b + c)
    ensures At(buf, pos, a) && At(buf, pos + |a|, b) && At(buf, pos + |a| + |b|, c)
  {
    AtSplit(buf, pos, a + b, c);
    AtSplit(buf, pos, a, b);
  }

  // ----- a tree that is nested too deeply is refused -----

  lemma {:induction false} DeepTreeIsRefused(n: Node, buf: seq<byte>, pos: nat, depth: nat)
    requires Fits(n) && !Within(n, MAX_DEPTH - depth) && At(buf, pos, Spell(n))
    ensures Dec(buf, pos, depth) == Err(TooDeep)
    decreases n, 0
  {
    if depth <= MAX_DEPTH {
      match n
      case NList(items) =>
        CountIsRead(6, |items|, SpellAll(items), buf, pos);
        DeepItemsAreRefused(items, buf, pos + 5, depth + 1);
      case NDict(pairs) =>
        CountIsRead(7, |pairs|, SpellPairs(pairs), buf, pos);
        DeepPairsAreRefused(pairs, buf, pos + 5, depth + 1, []);
    }
  }

  lemma {:induction false} DeepItemsAreRefused(items: seq<Node>, buf: seq<byte>, pos: nat, depth: nat)
    requires AllFit(items) && !AllWithin(items, MAX_DEPTH - depth) && At(buf, pos, SpellAll(items))
    requires depth <= MAX_DEPTH + 1
    ensures DecItems(buf, pos, |items|, depth) == Err(TooDeep)
    decreases items, 1
  {
    hide Spell, Fits, At, Dec;
    var next := pos + |Spell(items[0])|;
    ItemsSplit(items, buf, pos, next, pos + |SpellAll(items)|);
    if Within(items[0], MAX_DEPTH - depth) {
      TreeIsDecoded(items[0], buf, pos, depth);
      DeepItemsAreRefused(items[1..], buf, next, depth);
    } else {
      DeepTreeIsRefused(items[0], buf, pos, depth);
    }
  }

  lemma {:induction false} DeepPairsAreRefused(pairs: seq<Pair>, buf: seq<byte>, pos: nat, depth: nat, m: seq<Entry>)
    requires PairsFit(pairs) && !PairsWithin(pairs, MAX_DEPTH - depth) && At(buf, pos, SpellPairs(pairs))
    requires depth <= MAX_DEPTH + 1
    ensures DecEntries(buf, pos, |pairs|, depth, m) == Err(TooDeep)
    decreases pairs, 1
  {
    hide Spell, Fits, At, EncKey, DecEntry, Put;
    var Pair(key, node) := pairs[0];
    var p := pos + |EncKey(key)|;
    var next := p + |Spell(node)|;
    PairsSplit(pairs, buf, pos, p, next, pos + |SpellPairs(pairs)|);
    if Within(node, MAX_DEPTH - depth) {
      PairIsDecoded(pairs[0], buf, pos, p, next, depth);
      DeepPairsAreRefused(pairs[1..], buf, next, depth, Put(m, key, Meaning(node)));
    } else {
      DeepPairIsRefused(pairs[0], buf, pos, p, depth);
    }
  }

  lemma {:induction false} DeepPairIsRefused(pair: Pair, buf: seq<byte>, pos: nat, p: nat, depth: nat)
    requires |pair.key| < TWO32 && Fits(pair.node) && !Within(pair.node, MAX_DEPTH - depth)
    requires depth <= MAX_DEPTH + 1
    requires At(buf, pos, EncKey(pair.key)) && At(buf, p, Spell(pair.node)) && p == pos + |EncKey(pair.key)|
    ensures DecEntry(buf, pos, depth) == Err(TooDeep)
    decreases pair
  {
    hide Spell, Fits, Within, At;
    KeyIsRead(pair.key, buf, pos);
    DeepTreeIsRefused(pair.node, buf, p, depth);
  }

  // ----- what is decoded was spelled there -----

  lemma LengthIsLe(buf: seq<byte>, pos: nat)
    requires Length(buf, pos).Ok?
    ensures Length(buf, pos).value < TWO32 && At(buf, pos, Le(Length(buf, pos).value, 4))
  {
    var b := buf[pos..pos + 4];
    Pow256Four();
    FromLeBelow(b);
    LeOfFromLe(b);
  }

  lemma KeyWasSpelled(buf: seq<byte>, pos: nat, n: nat)
    requires Length(buf, pos) == Ok(n, pos + 4) && pos + 4 + n <= |buf|
    ensures var s := Slice(buf, pos + 4, n);
      |s| == n < TWO32 && At(buf, pos, EncKey(s)) && pos + |EncKey(s)| == pos + 4 + n
  {
    var s := Slice(buf, pos + 4, n);
    LengthIsLe(buf, pos);
    AtJoin(buf, pos, Le(n, 4), s);
  }

  lemma AtJoin(buf: seq<byte>, pos: nat, a: seq<byte>, b: seq<byte>)
    requires At(buf, pos, a) && At(buf, pos + |a|, b)
    ensures At(buf, pos, a + b)
  {
    AtSplit(buf, pos, a, b);
  }

  lemma EightBytes(buf: seq<byte>, p: nat) returns (b: seq<byte>)
    requires p + 8 <= |buf|
    ensures b == buf[p..p + 8] && |b| == 8 && At(buf, p, b)
    ensures FromLe(b) < TWO64 && Le(FromLe(b), 8) == b
    ensures -TWO63 <= UnpackInt(b) < TWO63 && PackInt(UnpackInt(b)) == b
  {
    b := buf[p..p + 8];
    Pow256Eight();
    FromLeBelow(b);
    LeOfFromLe(b);
  }

  lemma NumberWasSpelled(buf: seq<byte>, pos: nat, depth: nat) returns (n: Node)
    requires pos < |buf| && buf[pos] in {2, 3, 5}
    requires Dec(buf, pos, depth).Ok?
    ensures Fits(n) && Within(n, MAX_DEPTH - depth) && At(buf, pos, Spell(n))
    ensures Dec(buf, pos, depth) == Ok(Meaning(n), pos + |Spell(n)|)
  {
    var tag := buf[pos];
    var b := EightBytes(buf, pos + 1);
    AtJoin(buf, pos, [tag], b);
    n := if tag == 2 then NInt(UnpackInt(b)) else if tag == 3 then NFloat(b) else NId(FromLe(b));
  }

  lemma LeafWasSpelled(buf: seq<byte>, pos: nat, depth: nat) returns (n: Node)
    requires pos < |buf| && buf[pos] in {0, 1, 4}
    requires Dec(buf, pos, depth).Ok? && Dec(buf, pos, depth).next <= |buf|
    ensures Fits(n) && Within(n, MAX_DEPTH - depth) && At(buf, pos, Spell(n))
    ensures Dec(buf, pos, depth) == Ok(Meaning(n), pos + |Spell(n)|)
  {
    var tag, p := buf[pos], pos + 1;
    if tag == 0 {
      n := NNull;
    } else if tag == 1 {
      n := NBool(buf[p]);
    } else {
      var len := Length(buf, p);
      KeyWasSpelled(buf, p, len.value);
      n := NStr(Slice(buf, len.next, len.value));
      AtJoin(buf, pos, [4], EncKey(n.s));
    }
  }

  lemma {:induction false} WhatIsDecodedWasSpelled(buf: seq<byte>, pos: nat, depth: nat) returns (n: Node)
    requires Dec(buf, pos, depth).Ok? && Dec(buf, pos, depth).next <= |buf|
    ensures Fits(n) && Within(n, MAX_DEPTH - depth) && At(buf, pos, Spell(n))
    ensures Dec(buf, pos, depth) == Ok(Meaning(n), pos + |Spell(n)|)
    decreases MAX_DEPTH + 1 - depth, 0, 1
  {
    var tag, p := buf[pos], pos + 1;
    if tag in {2, 3, 5} {
      n := NumberWasSpelled(buf, pos, depth);
    } else if tag in {0, 1, 4} {
      n := LeafWasSpelled(buf, pos, depth);
    } else if tag == 6 {
      n := ListWasSpelled(buf, pos, depth);
    } else {
      n := DictWasSpelled(buf, pos, depth);
    }
  }

  lemma {:induction false} ListWasSpelled(buf: seq<byte>, pos: nat, depth: nat) returns (n: Node)
    requires pos < |buf| && buf[pos] == 6
    requires Dec(buf, pos, depth).Ok? && Dec(buf, pos, depth).next <= |buf|
    ensures Fits(n) && Within(n, MAX_DEPTH - depth) && At(buf, pos, Spell(n))
    ensures Dec(buf, pos, depth) == Ok(Meaning(n), pos + |Spell(n)|)
    decreases MAX_DEPTH + 1 - depth, 0, 0
  {
    var count := Length(buf, pos + 1).value;
    var items := ItemsWereSpelled(buf, pos + 5, count, depth + 1);
    n := NList(items);
    CountWasSpelled(buf, pos, 6, count, SpellAll(items));
  }

  lemma {:induction false} DictWasSpelled(buf: seq<byte>, pos: nat, depth: nat) returns (n: Node)
    requires pos < |buf| && buf[pos] == 7
    requires Dec(buf, pos, depth).Ok? && Dec(buf, pos, depth).next <= |buf|
    ensures Fits(n) && Within(n, MAX_DEPTH - depth) && At(buf, pos, Spell(n))
    ensures Dec(buf, pos, depth) == Ok(Meaning(n), pos + |Spell(n)|)
    decreases MAX_DEPTH + 1 - depth, 0, 0
  {
    var count := Length(buf, pos + 1).value;
    var pairs := PairsWereSpelled(buf, pos + 5, count, depth + 1, []);
    n := NDict(pairs);
    CountWasSpelled(buf, pos, 7, count, SpellPairs(pairs));
  }

  lemma CountWasSpelled(buf: seq<byte>, pos: nat, tag: byte, n: nat, rest: seq<byte>)
    requires pos < |buf| && buf[pos] == tag && Length(buf, pos + 1) == Ok(n, pos + 5) && At(buf, pos + 5, rest)
    ensures n < TWO32 && At(buf, pos, [tag] + Le(n, 4) + rest)
  {
    LengthIsLe(buf, pos + 1);
    assert At(buf, pos, [tag]);
    AtJoin(buf, pos, [tag], Le(n, 4));
    AtJoin(buf, pos, [tag] + Le(n, 4), rest);
  }

  lemma NoItems(buf: seq<byte>, pos: nat, depth: nat)
    requires depth <= MAX_DEPTH + 1 && pos <= |buf|
    ensures AllFit([]) && AllWithin([], MAX_DEPTH - depth) && SpellAll([]) == [] && MeaningAll([]) == []
    ensures At(buf, pos, SpellAll([]))
  {
  }

  lemma {:induction false} ItemsWereSpelled(buf: seq<byte>, pos: nat, n: nat, depth: nat) returns (items: seq<Node>)
    requires depth <= MAX_DEPTH + 1 && pos <= |buf|
    requires DecItems(buf, pos, n, depth).Ok? && DecItems(buf, pos, n, depth).next <= |buf|
    ensures |items| == n && AllFit(items) && AllWithin(items, MAX_DEPTH - depth) && At(buf, pos, SpellAll(items))
    ensures DecItems(buf, pos, n, depth) == Ok(MeaningAll(items), pos + |SpellAll(items)|)
    decreases MAX_DEPTH + 1 - depth, n + 1
  {
    hide Spell, Fits, Within, At, Dec, Meaning, AllFit, AllWithin, SpellAll, MeaningAll;
    if n == 0 {
      items := [];
      NoItems(buf, pos, depth);
    } else {
      var first := WhatIsDecodedWasSpelled(buf, pos, depth);
      var rest := ItemsWereSpelled(buf, pos + |Spell(first)|, n - 1, depth);
      items := [first] + rest;
      ItemsCons(first, rest, depth);
      AtJoin(buf, pos, Spell(first), SpellAll(rest));
    }
  }

  lemma ItemsCons(first: Node, rest: seq<Node>, depth: nat)
    requires Fits(first) && Within(first, MAX_DEPTH - depth)
    requires AllFit(rest) && AllWithin(rest, MAX_DEPTH - depth)
    ensures AllFit([first] + rest) && AllWithin([first] + rest, MAX_DEPTH - depth)
    ensures SpellAll([first] + rest) == Spell(first) + SpellAll(rest)
    ensures MeaningAll([first] + rest) == [Meaning(first)] + MeaningAll(rest)
  {
    assert ([first] + rest)[1..] == rest;
  }

  lemma NoPairs(buf: seq<byte>, pos: nat, depth: nat, m: seq<Entry>)
    requires depth <= MAX_DEPTH + 1 && pos <= |buf|
    ensures PairsFit([]) && PairsWithin([], MAX_DEPTH - depth) && SpellPairs([]) == [] && MeaningPairs([], m) == m
    ensures At(buf, pos, SpellPairs([]))
  {
  }

  lemma {:induction false} PairsWereSpelled(buf: seq<byte>, pos: nat, n: nat, depth: nat, m: seq<Entry>)
    returns (pairs: seq<Pair>)
    requires depth <= MAX_DEPTH + 1 && pos <= |buf|
    requires DecEntries(buf, pos, n, depth, m).Ok? && DecEntries(buf, pos, n, depth, m).next <= |buf|
    ensures |pairs| == n && PairsFit(pairs) && PairsWithin(pairs, MAX_DEPTH - depth)
    ensures At(buf, pos, SpellPairs(pairs))
    ensures DecEntries(buf, pos, n, depth, m) == Ok(MeaningPairs(pairs, m), pos + |SpellPairs(pairs)|)
    decreases MAX_DEPTH + 1 - depth, n + 1
  {
    hide Spell, Fits, Within, At, DecEntry, Meaning, PairsFit, PairsWithin, SpellPairs, MeaningPairs, EncKey, Put;
    if n == 0 {
      pairs := [];
      NoPairs(buf, pos, depth, m);
    } else {
      var pair, next := PairWasSpelled(buf, pos, depth);
      var rest := PairsWereSpelled(buf, next, n - 1, depth, Put(m, pair.key, Meaning(pair.node)));
      pairs := [pair] + rest;
      PairsCons(pair, rest, depth, m);
      AtJoin(buf, pos, EncKey(pair.key) + Spell(pair.node), SpellPairs(rest));
    }
  }

  lemma PairsCons(pair: Pair, rest: seq<Pair>, depth: nat, m: seq<Entry>)
    requires |pair.key| < TWO32 && Fits(pair.node) && Within(pair.node, MAX_DEPTH - depth)
    requires PairsFit(rest) && PairsWithin(rest, MAX_DEPTH - depth)
    ensures PairsFit([pair] + rest) && PairsWithin([pair] + rest, MAX_DEPTH - depth)
    ensures SpellPairs([pair] + rest) == EncKey(pair.key) + Spell(pair.node) + SpellPairs(rest)
    ensures MeaningPairs([pair] + rest, m) == MeaningPairs(rest, Put(m, pair.key, Meaning(pair.node)))
  {
    assert ([pair] + rest)[1..] == rest;
  }

  lemma {:induction false} PairWasSpelled(buf: seq<byte>, pos: nat, depth: nat) returns (pair: Pair, next: nat)
    requires depth <= MAX_DEPTH + 1
    requires DecEntry(buf, pos, depth).Ok? && DecEntry(buf, pos, depth).next <= |buf|
    ensures |pair.key| < TWO32 && Fits(pair.node) && Within(pair.node, MAX_DEPTH - depth)
    ensures At(buf, pos, EncKey(pair.key) + Spell(pair.node))
    ensures next == pos + |EncKey(pair.key) + Spell(pair.node)|
    ensures DecEntry(buf, pos, depth) == Ok(Entry(pair.key, Meaning(pair.node)), next)
    decreases MAX_DEPTH + 1 - depth, 1
  {
    var kn := Length(buf, pos);
    var p := kn.next + kn.value;
    KeyWasSpelled(buf, pos, kn.value);
    var key := Slice(buf, kn.next, kn.value);
    var node := WhatIsDecodedWasSpelled(buf, p, depth);
    pair := Pair(key, node);
    next := p + |Spell(node)|;
    AtJoin(buf, pos, EncKey(key), Spell(node));
  }

  /** Decoder soundness and completeness in one: a buffer is accepted exactly when it is the
      version byte and one tree, whole, with every length and count inside it, nested at most
      64 levels; the value is then what that tree means. */
  lemma AcceptedExactly(buf: seq<byte>, n: Node)
    requires Fits(n) && buf == [1] + Spell(n)
    ensures DecodeValue(buf) == if Within(n, MAX_DEPTH) then Ok(Meaning(n), |buf|) else Err(TooDeep)
  {
    assert At(buf, 1, Spell(n));
    if Within(n, MAX_DEPTH) {
      TreeIsDecoded(n, buf, 1, 0);
    } else {
      DeepTreeIsRefused(n, buf, 1, 0);
    }
  }

  lemma AcceptedOnly(buf: seq<byte>) returns (n: Node)
    requires buf != [] && DecodeValue(buf).Ok?
    ensures Fits(n) && Within(n, MAX_DEPTH) && buf == [1] + Spell(n)
    ensures DecodeValue(buf) == Ok(Meaning(n), |buf|)
  {
    n := WhatIsDecodedWasSpelled(buf, 1, 0);
    assert buf == buf[..1] + buf[1..];
  }

  /** No bytes are None; any other buffer is accepted exactly when it is the version byte and one
      tree that is not nested too deeply, and then as what the tree means. */
  lemma DecodedExactly(buf: seq<byte>)
    ensures buf == [] ==> DecodeValue(buf) == Ok(Null, 0)
    ensures DecodeValue(buf).Ok? <==> buf == [] || exists n :: Spelled(buf, n)
    ensures forall n :: Spelled(buf, n) ==> DecodeValue(buf) == Ok(Meaning(n), |buf|)
  {
    hide DecodeValue, Spell, Fits, Within;
    EmptyIsNull();
    if buf != [] && DecodeValue(buf).Ok? {
      var n := AcceptedOnly(buf);
      assert Spelled(buf, n);
    }
    forall n | Spelled(buf, n) ensures DecodeValue(buf) == Ok(Meaning(n), |buf|) {
      AcceptedExactly(buf, n);
    }
  }

  ghost predicate Spelled(buf: seq<byte>, n: Node) {
    Fits(n) && Within(n, 64) && buf == [1] + Spell(n)
  }

  lemma EmptyIsNull()
    ensures DecodeValue([]) == Ok(Null, 0)
  {
  }

  /** A buffer of another version is refused as such, whatever it holds. */
  lemma OtherVersionIsRefused(buf: seq<byte>)
    requires buf != [] && buf[0] != 1
    ensures DecodeValue(buf) == Err(UnknownVersion)
  {
  }

  /** A shorter buffer that ends inside the tree is never accepted, a longer one neither. */
  lemma NoAcceptedPrefix(buf: seq<byte>, k: nat)
    requires buf != [] && DecodeValue(buf).Ok? && 0 < k < |buf|
    ensures !DecodeValue(buf[..k]).Ok?
  {
    if DecodeValue(buf[..k]).Ok? {
      var n := AcceptedOnly(buf[..k]);
      assert At(buf[..k], 1, Spell(n));
      assert At(buf, 1, Spell(n));
      TreeIsDecoded(n, buf, 1, 0);
      assert false;
    }
  }

  // ----- round trip -----

  /** The tree that `_enc` spells. */
  function Tree(v: Value): (n: Node)
    requires Encodable(v)
  {
    match v
    case Null => NNull
    case Bool(b) => NBool(if b then 1 else 0)
    case Int(i) => NInt(i)
    case Float(bits) => NFloat(bits)
    case Str(s) => NStr(s)
    case Id(id) => NId(id)
    case List(items) => NList(TreeAll(items))
    case Dict(entries) => NDict(TreePairs(entries))
  }

  function TreeAll(items: seq<Value>): (r: seq<Node>)
    requires AllEncodable(items)
    ensures |r| == |items|
    ensures forall i :: 0 <= i < |items| ==> r[i] == Tree(items[i])
  {
    if items == [] then [] else [Tree(items[0])] + TreeAll(items[1..])
  }

  function TreePairs(entries: seq<Entry>): (r: seq<Pair>)
    requires EntriesEncodable(entries)
    ensures |r| == |entries|
    ensures forall i :: 0 <= i < |entries| ==> r[i] == Pair(entries[i].key, Tree(entries[i].value))
  {
    if entries == [] then [] else [Pair(entries[0].key, Tree(entries[0].value))] + TreePairs(entries[1..])
  }

  /** The keys of every dict in v are distinct, as in every Python dict. */
  predicate DistinctlyKeyed(v: Value) {
    match v
    case List(items) => forall i :: 0 <= i < |items| ==> DistinctlyKeyed(items[i])
    case Dict(entries) => DistinctKeys(entries) && forall i :: 0 <= i < |entries| ==> DistinctlyKeyed(entries[i].value)
    case _ => true
  }

  predicate DistinctKeys(entries: seq<Entry>) {
    forall i, j :: 0 <= i < j < |entries| ==> entries[i].key != entries[j].key
  }

  /** v is nested at most d levels deep. */
  predicate Nested(v: Value, d: int) {
    d >= 0 &&
    match v
    case List(items) => forall i :: 0 <= i < |items| ==> Nested(items[i], d - 1)
    case Dict(entries) => forall i :: 0 <= i < |entries| ==> Nested(entries[i].value, d - 1)
    case _ => true
  }

  lemma {:induction false} TreeSpellsEnc(v: Value)
    requires Encodable(v)
    ensures Fits(Tree(v)) && Spell(Tree(v)) == Enc(v)
    decreases v, 0
  {
    match v
    case List(items) => TreesSpellEnc(items);
    case Dict(entries) => PairsSpellEnc(entries);
    case _ =>
  }

  lemma {:induction false} TreesSpellEnc(items: seq<Value>)
    requires AllEncodable(items)
    ensures AllFit(TreeAll(items)) && SpellAll(TreeAll(items)) == EncItems(items)
    decreases items, 1
  {
    if items != [] {
      TreeSpellsEnc(items[0]);
      TreesSpellEnc(items[1..]);
      assert TreeAll(items)[1..] == TreeAll(items[1..]);
      AllFitCons(TreeAll(items));
    }
  }

  lemma AllFitCons(items: seq<Node>)
    requires items != [] && Fits(items[0]) && AllFit(items[1..])
    ensures AllFit(items)
  {
    forall i | 0 <= i < |items| ensures Fits(items[i]) {
      if i > 0 { assert items[i] == items[1..][i - 1]; }
    }
  }

  lemma {:induction false} PairsSpellEnc(entries: seq<Entry>)
    requires EntriesEncodable(entries)
    ensures PairsFit(TreePairs(entries)) && SpellPairs(TreePairs(entries)) == EncEntries(entries)
    decreases entries, 1
  {
    if entries != [] {
      TreeSpellsEnc(entries[0].value);
      PairsSpellEnc(entries[1..]);
      assert TreePairs(entries)[1..] == TreePairs(entries[1..]);
      PairsFitCons(TreePairs(entries));
    }
  }

  lemma PairsFitCons(pairs: seq<Pair>)
    requires pairs != [] && |pairs[0].key| < TWO32 && Fits(pairs[0].node) && PairsFit(pairs[1..])
    ensures PairsFit(pairs)
  {
    forall i | 0 <= i < |pairs| ensures |pairs[i].key| < TWO32 && Fits(pairs[i].node) {
      if i > 0 { assert pairs[i] == pairs[1..][i - 1]; }
    }
  }

  lemma {:induction false} TreeNests(v: Value, d: int)
    requires Encodable(v)
    ensures Within(Tree(v), d) <==> Nested(v, d)
    decreases v, 0
  {
    match v
    case List(items) => TreesNest(items, d - 1);
    case Dict(entries) => PairsNest(entries, d - 1);
    case _ =>
  }

  lemma {:induction false} TreesNest(items: seq<Value>, d: int)
    requires AllEncodable(items)
    ensures AllWithin(TreeAll(items), d) <==> forall i :: 0 <= i < |items| ==> Nested(items[i], d)
    decreases items, 1
  {
    forall i | 0 <= i < |items| ensures Within(TreeAll(items)[i], d) <==> Nested(items[i], d) {
      TreeNests(items[i], d);
    }
  }

  lemma {:induction false} PairsNest(entries: seq<Entry>, d: int)
    requires EntriesEncodable(entries)
    ensures PairsWithin(TreePairs(entries), d) <==> forall i :: 0 <= i < |entries| ==> Nested(entries[i].value, d)
    decreases entries, 1
  {
    forall i | 0 <= i < |entries|
      ensures Within(TreePairs(entries)[i].node, d) <==> Nested(entries[i].value, d)
    {
      TreeNests(entries[i].value, d);
    }
  }

  lemma {:induction false} PutFresh(m: seq<Entry>, key: seq<byte>, v: Value)
    requires forall i :: 0 <= i < |m| ==> m[i].key != key
    ensures Put(m, key, v) == m + [Entry(key, v)]
  {
    if m != [] {
      PutFresh(m[1..], key, v);
      assert m == [m[0]] + m[1..];
    }
  }

  lemma {:induction false} TreeMeansValue(v: Value)
    requires Encodable(v) && DistinctlyKeyed(v)
    ensures Meaning(Tree(v)) == v
    decreases v, 0
  {
    match v
    case List(items) => TreesMeanValues(items);
    case Dict(entries) => PairsMeanEntries(entries, []);
    case _ =>
  }

  lemma {:induction false} TreesMeanValues(items: seq<Value>)
    requires AllEncodable(items) && forall i :: 0 <= i < |items| ==> DistinctlyKeyed(items[i])
    ensures MeaningAll(TreeAll(items)) == items
    decreases items, 1
  {
    if items != [] {
      TreeMeansValue(items[0]);
      TreesMeanValues(items[1..]);
      assert TreeAll(items)[1..] == TreeAll(items[1..]);
    }
  }

  lemma {:induction false} PairsMeanEntries(entries: seq<Entry>, m: seq<Entry>)
    requires EntriesEncodable(entries) && forall i :: 0 <= i < |entries| ==> DistinctlyKeyed(entries[i].value)
    requires DistinctKeys(m + entries)
    ensures MeaningPairs(TreePairs(entries), m) == m + entries
    decreases entries, 1
  {
    if entries == [] {
      assert m + entries == m;
    } else {
      var e, m' := entries[0], m + [entries[0]];
      TreeMeansValue(e.value);
      forall i | 0 <= i < |m| ensures m[i].key != e.key {
        assert (m + entries)[i] == m[i] && (m + entries)[|m|] == e;
      }
      PutFresh(m, e.key, e.value);
      assert m' + entries[1..] == m + entries;
      PairsMeanEntries(entries[1..], m');
      assert TreePairs(entries)[1..] == TreePairs(entries[1..]);
    }
  }

  // ----- what was decoded can be encoded again -----

  lemma {:induction false} MeaningIsEncodable(n: Node)
    requires Fits(n)
    ensures Encodable(Meaning(n))
    decreases n, 0
  {
    match n
    case NList(items) => MeaningsAreEncodable(items);
    case NDict(pairs) => PairsAreEncodable(pairs, []);
    case _ =>
  }

  lemma {:induction false} MeaningsAreEncodable(items: seq<Node>)
    requires AllFit(items)
    ensures |MeaningAll(items)| == |items| && AllEncodable(MeaningAll(items))
    decreases items, 1
  {
    if items != [] {
      MeaningIsEncodable(items[0]);
      MeaningsAreEncodable(items[1..]);
    }
  }

  lemma {:induction false} PutIsEncodable(m: seq<Entry>, key: seq<byte>, v: Value)
    requires EntriesEncodable(m) && |key| < TWO32 && Encodable(v)
    ensures EntriesEncodable(Put(m, key, v)) && |Put(m, key, v)| <= |m| + 1
  {
    hide Encodable;
    if m != [] && m[0].key != key {
      PutIsEncodable(m[1..], key, v);
    }
  }

  lemma {:induction false} PairsAreEncodable(pairs: seq<Pair>, m: seq<Entry>)
    requires PairsFit(pairs) && EntriesEncodable(m)
    ensures EntriesEncodable(MeaningPairs(pairs, m)) && |MeaningPairs(pairs, m)| <= |m| + |pairs|
    decreases pairs, 1
  {
    hide Encodable, EntriesEncodable, Fits;
    if pairs != [] {
      MeaningIsEncodable(pairs[0].node);
      PutIsEncodable(m, pairs[0].key, Meaning(pairs[0].node));
      PairsAreEncodable(pairs[1..], Put(m, pairs[0].key, Meaning(pairs[0].node)));
    }
  }

  /** Whatever `decode_value` returns, `encode_value` takes. */
  lemma DecodedIsEncodable(buf: seq<byte>)
    requires DecodeValue(buf).Ok?
    ensures Encodable(DecodeValue(buf).value)
  {
    if buf != [] {
      var n := AcceptedOnly(buf);
      MeaningIsEncodable(n);
    }
  }

  /** `decode_value(encode_value(v))` gives back v exactly when v is nested at most 64 levels;
      deeper values are refused, not changed. */
  lemma DecodeUndoesEncodeExactly(v: Value)
    requires Encodable(v) && DistinctlyKeyed(v)
    ensures var buf := EncodeValue(v);
      DecodeValue(buf) == if Nested(v, MAX_DEPTH) then Ok(v, |buf|) else Err(TooDeep)
  {
    TreeSpellsEnc(v);
    TreeNests(v, MAX_DEPTH);
    TreeMeansValue(v);
    AcceptedExactly(EncodeValue(v), Tree(v));
  }

  // ----- at most one tree is spelled at a place, however deep -----

  function TagOf(n: Node): byte {
    match n
    case NNull => 0
    case NBool(_) => 1
    case NInt(_) => 2
    case NFloat(_) => 3
    case NStr(_) => 4
    case NId(_) => 5
    case NList(_) => 6
    case NDict(_) => 7
  }

  lemma TagLeads(n: Node, buf: seq<byte>, pos: nat)
    requires Fits(n) && At(buf, pos, Spell(n))
    ensures pos < |buf| && buf[pos] == TagOf(n)
  {
    assert Spell(n)[0] == TagOf(n);
    assert buf[pos] == buf[pos..pos + |Spell(n)|][0];
  }

  lemma OneLeaf(m: Node, n: Node, buf: seq<byte>, pos: nat)
    requires Fits(m) && At(buf, pos, Spell(m)) && !m.NList? && !m.NDict?
    requires Fits(n) && At(buf, pos, Spell(n)) && TagOf(m) == TagOf(n)
    ensures m == n
  {
    match m
    case NNull =>
    case NBool(flag) =>
      assert Spell(m) == [1] + [flag] && Spell(n) == [1] + [n.flag];
      TagIsRead(buf, pos, 1, [flag]);
      TagIsRead(buf, pos, 1, [n.flag]);
    case NInt(i) =>
      TagIsRead(buf, pos, 2, PackInt(i));
      TagIsRead(buf, pos, 2, PackInt(n.n));
      IntIsRead(i);
      IntIsRead(n.n);
    case NFloat(bits) =>
      TagIsRead(buf, pos, 3, bits);
      TagIsRead(buf, pos, 3, n.bits);
    case NStr(s) =>
      TagIsRead(buf, pos, 4, EncKey(s));
      TagIsRead(buf, pos, 4, EncKey(n.s));
      KeyIsRead(s, buf, pos + 1);
      KeyIsRead(n.s, buf, pos + 1);
    case NId(id) =>
      TagIsRead(buf, pos, 5, Le(id, 8));
      TagIsRead(buf, pos, 5, Le(n.id, 8));
      IdIsRead(id);
      IdIsRead(n.id);
  }

  lemma {:induction false} OneTree(m: Node, n: Node, buf: seq<byte>, pos: nat)
    requires Fits(m) && At(buf, pos, Spell(m))
    requires Fits(n) && At(buf, pos, Spell(n))
    ensures m == n
    decreases m, 0
  {
    TagLeads(m, buf, pos);
    TagLeads(n, buf, pos);
    match m
    case NList(items) =>
      CountIsRead(6, |items|, SpellAll(items), buf, pos);
      CountIsRead(6, |n.items|, SpellAll(n.items), buf, pos);
      OneList(items, n.items, buf, pos + 5);
    case NDict(pairs) =>
      CountIsRead(7, |pairs|, SpellPairs(pairs), buf, pos);
      CountIsRead(7, |n.pairs|, SpellPairs(n.pairs), buf, pos);
      OneDict(pairs, n.pairs, buf, pos + 5);
    case _ => OneLeaf(m, n, buf, pos);
  }

  lemma SameFirstAndRest<T>(a: seq<T>, b: seq<T>)
    requires a != [] && b != [] && a[0] == b[0] && a[1..] == b[1..]
    ensures a == b
  {
    assert a == [a[0]] + a[1..] && b == [b[0]] + b[1..];
  }

  lemma {:induction false} OneList(ms: seq<Node>, ns: seq<Node>, buf: seq<byte>, pos: nat)
    requires |ms| == |ns|
    requires AllFit(ms) && At(buf, pos, SpellAll(ms))
    requires AllFit(ns) && At(buf, pos, SpellAll(ns))
    ensures ms == ns
    decreases ms, 1
  {
    hide Spell, Fits, At;
    if ms != [] {
      ItemsSplit(ms, buf, pos, pos + |Spell(ms[0])|, pos + |SpellAll(ms)|);
      ItemsSplit(ns, buf, pos, pos + |Spell(ns[0])|, pos + |SpellAll(ns)|);
      OneTree(ms[0], ns[0], buf, pos);
      OneList(ms[1..], ns[1..], buf, pos + |Spell(ms[0])|);
      SameFirstAndRest(ms, ns);
    }
  }

  lemma FirstFits(pairs: seq<Pair>)
    requires pairs != [] && PairsFit(pairs)
    ensures |pairs[0].key| < TWO32 && Fits(pairs[0].node) && PairsFit(pairs[1..])
  {
  }

  lemma OneKey(a: seq<byte>, b: seq<byte>, buf: seq<byte>, pos: nat)
    requires |a| < TWO32 && At(buf, pos, EncKey(a))
    requires |b| < TWO32 && At(buf, pos, EncKey(b))
    ensures a == b
  {
    KeyIsRead(a, buf, pos);
    KeyIsRead(b, buf, pos);
  }

  lemma {:induction false} OneDict(ms: seq<Pair>, ns: seq<Pair>, buf: seq<byte>, pos: nat)
    requires |ms| == |ns|
    requires PairsFit(ms) && At(buf, pos, SpellPairs(ms))
    requires PairsFit(ns) && At(buf, pos, SpellPairs(ns))
    ensures ms == ns
    decreases ms, 1
  {
    hide Spell, Fits, At, EncKey, SpellPairs, PairsFit;
    if ms != [] {
      FirstFits(ms);
      FirstFits(ns);
      var p, q := pos + |EncKey(ms[0].key)|, pos + |EncKey(ns[0].key)|;
      PairsSplit(ms, buf, pos, p, p + |Spell(ms[0].node)|, pos + |SpellPairs(ms)|);
      PairsSplit(ns, buf, pos, q, q + |Spell(ns[0].node)|, pos + |SpellPairs(ns)|);
      OneKey(ms[0].key, ns[0].key, buf, pos);
      OneTree(ms[0].node, ns[0].node, buf, p);
      OneDict(ms[1..], ns[1..], buf, p + |Spell(ms[0].node)|);
      SameFirstAndRest(ms, ns);
    }
  }

  /** However deep the values: no encoding is a proper prefix of another, so values written one
      behind the other can be told apart. */
  lemma EncodingsArePrefixFree(v: Value, w: Value)
    requires Encodable(v) && DistinctlyKeyed(v)
    requires Encodable(w) && DistinctlyKeyed(w)
    requires Enc(v) <= Enc(w)
    ensures v == w
  {
    TreeSpellsEnc(v);
    TreeSpellsEnc(w);
    OneTree(Tree(v), Tree(w), Enc(w), 0);
    TreeMeansValue(v);
    TreeMeansValue(w);
  }

  lemma DecodesWhateverFollows(v: Value, buf: seq<byte>)
    requires Encodable(v) && DistinctlyKeyed(v) && Nested(v, MAX_DEPTH) && Enc(v) <= buf
    ensures Dec(buf, 0, 0) == Ok(v, |Enc(v)|)
  {
    TreeSpellsEnc(v);
    TreeNests(v, MAX_DEPTH);
    TreeMeansValue(v);
    TreeIsDecoded(Tree(v), buf, 0, 0);
  }
}
