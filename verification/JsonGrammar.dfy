/** What `parse_json` (loadtests/json_value.cpp) takes for JSON, written down as a grammar of its own:
    documents with their white space and the spelling of every string. Every text of the grammar is
    accepted with its meaning. */
module JsonGrammar {
  import opened Text
  import opened Json

  // ----- the characters: sections 2, 6 and 7 of RFC 8259 -----

  const BLANKS := " \t\n\r"
  const NUMBER_CHARS := "0123456789.eE+-"
  const LOWER_HEX := "0123456789abcdef"
  const UPPER_HEX := "0123456789ABCDEF"

  /** The characters that may follow a backslash, and what they stand for. */
  const SHORT := "\"\\/bfnrt"
  const SHORT_MEANS := "\"\\/\U{8}\U{c}\n\r\t"

  predicate Blank(s: string) {
    forall i :: 0 <= i < |s| ==> s[i] in BLANKS
  }

  predicate IsNumberText(s: string) {
    s != "" && forall i :: 0 <= i < |s| ==> s[i] in NUMBER_CHARS
  }

  predicate IsHex(c: char) {
    c in LOWER_HEX || c in UPPER_HEX
  }

  predicate AllHex(h: string) {
    forall i :: 0 <= i < |h| ==> IsHex(h[i])
  }

  ghost function Nibble(c: char): (d: nat)
    requires IsHex(c)
    ensures d < 16 && (c == LOWER_HEX[d] || c == UPPER_HEX[d])
  {
    var d: nat :| d < 16 && (c == LOWER_HEX[d] || c == UPPER_HEX[d]);
    d
  }

  /** The number that the digits denote behind the number acc. */
  ghost function HexValue(h: string, acc: nat): nat
    requires AllHex(h)
    decreases |h|
  {
    if h == "" then acc else HexValue(h[1..], 16 * acc + Nibble(h[0]))
  }

  // ----- the grammar -----

  /** One character of a string. Four hex digits follow the u; the code is content with fewer of
      them at the start of these four characters. */
  datatype Piece = Plain(c: char) | Short(k: nat) | Unicode(hex: string, rest: string)

  predicate PieceFits(p: Piece) {
    match p
    case Plain(c) => c != '"' && c != '\\'
    case Short(k) => k < |SHORT|
    case Unicode(hex, rest) =>
      |hex| + |rest| == 4 && hex != "" && AllHex(hex) && (rest != "" ==> !IsHex(rest[0]))
  }

  function PieceText(p: Piece): (s: string)
    requires PieceFits(p)
    ensures s != ""
  {
    match p
    case Plain(c) => [c]
    case Short(k) => ['\\', SHORT[k]]
    case Unicode(hex, rest) => "\\u" + hex + rest
  }

  ghost function PieceMeans(p: Piece): string
    requires PieceFits(p)
  {
    match p
    case Plain(c) => [c]
    case Short(k) => [SHORT_MEANS[k]]
    case Unicode(hex, _) => Utf8(HexValue(hex, 0))
  }

  predicate PiecesFit(ps: seq<Piece>) {
    forall i :: 0 <= i < |ps| ==> PieceFits(ps[i])
  }

  function PiecesText(ps: seq<Piece>): string
    requires PiecesFit(ps)
  {
    if ps == [] then "" else PieceText(ps[0]) + PiecesText(ps[1..])
  }

  ghost function PiecesMean(ps: seq<Piece>): string
    requires PiecesFit(ps)
  {
    if ps == [] then "" else PieceMeans(ps[0]) + PiecesMean(ps[1..])
  }

  function StringText(ps: seq<Piece>): string
    requires PiecesFit(ps)
  {
    "\"" + (PiecesText(ps) + "\"")
  }

  datatype Doc =
    | DNull
    | DBool(b: bool)
    | DNumber(token: string)
    | DStr(pieces: seq<Piece>)
    | DNoItems(gap: string)
    | DItems(items: seq<Item>)
    | DNoFields(gap: string)
    | DFields(fields: seq<Field>)

  datatype Item = Item(before: string, doc: Doc, after: string)

  datatype Field = Field(before: string, key: seq<Piece>, behindKey: string, item: Item)

  predicate DocFits(d: Doc) {
    match d
    case DNumber(token) => IsNumberText(token)
    case DStr(pieces) => PiecesFit(pieces)
    case DNoItems(gap) => Blank(gap)
    case DItems(items) => items != [] && ItemsFit(items)
    case DNoFields(gap) => Blank(gap)
    case DFields(fields) => fields != [] && FieldsFit(fields)
    case _ => true
  }

  predicate ItemFits(it: Item) {
    Blank(it.before) && DocFits(it.doc) && Blank(it.after)
  }

  predicate ItemsFit(items: seq<Item>) {
    forall i :: 0 <= i < |items| ==> ItemFits(items[i])
  }

  predicate FieldFits(f: Field) {
    Blank(f.before) && PiecesFit(f.key) && Blank(f.behindKey) && ItemFits(f.item)
  }

  predicate FieldsFit(fields: seq<Field>) {
    forall i :: 0 <= i < |fields| ==> FieldFits(fields[i])
  }

  function DocText(d: Doc): string
    requires DocFits(d)
  {
    match d
    case DNull => "null"
    case DBool(b) => if b then "true" else "false"
    case DNumber(token) => token
    case DStr(pieces) => StringText(pieces)
    case DNoItems(gap) => "[" + (gap + "]")
    case DItems(items) => "[" + (ItemsText(items) + "]")
    case DNoFields(gap) => "{" + (gap + "}")
    case DFields(fields) => "{" + (FieldsText(fields) + "}")
  }

  function ItemText(it: Item): string
    requires ItemFits(it)
  {
    it.before + (DocText(it.doc) + it.after)
  }

  function ItemsText(items: seq<Item>): string
    requires items != [] && ItemsFit(items)
  {
    if |items| == 1 then ItemText(items[0]) else ItemText(items[0]) + ("," + ItemsText(items[1..]))
  }

  function FieldText(f: Field): string
    requires FieldFits(f)
  {
    f.before + (StringText(f.key) + (f.behindKey + (":" + ItemText(f.item))))
  }

  function FieldsText(fields: seq<Field>): string
    requires fields != [] && FieldsFit(fields)
  {
    if |fields| == 1 then FieldText(fields[0]) else FieldText(fields[0]) + ("," + FieldsText(fields[1..]))
  }

  ghost function Meaning(d: Doc): Json
    requires DocFits(d)
  {
    match d
    case DNull => Null
    case DBool(b) => Bool(b)
    case DNumber(token) => Number(token)
    case DStr(pieces) => Str(PiecesMean(pieces))
    case DNoItems(_) => Arr([])
    case DItems(items) => Arr(ItemsMean(items))
    case DNoFields(_) => Obj([])
    case DFields(fields) => Obj(FieldsMean(fields))
  }

  ghost function ItemMeans(it: Item): Json
    requires ItemFits(it)
  {
    Meaning(it.doc)
  }

  ghost function ItemsMean(items: seq<Item>): seq<Json>
    requires ItemsFit(items)
  {
    if items == [] then [] else [ItemMeans(items[0])] + ItemsMean(items[1..])
  }

  ghost function FieldMeans(f: Field): Member
    requires FieldFits(f)
  {
    Member(PiecesMean(f.key), ItemMeans(f.item))
  }

  ghost function FieldsMean(fields: seq<Field>): seq<Member>
    requires FieldsFit(fields)
  {
    if fields == [] then [] else [FieldMeans(fields[0])] + FieldsMean(fields[1..])
  }

  // ----- characters are recognised -----

  lemma SpaceIsBlank(c: char)
    ensures IsSpace(c) <==> c in BLANKS
  {
  }

  lemma NumberCharIs(c: char)
    ensures IsNumberChar(c) <==> c in NUMBER_CHARS
  {
    if IsDigit(c) {
      assert NUMBER_CHARS[c as int - '0' as int] == c;
    }
  }

  lemma HexDigitIs(c: char)
    ensures HexDigit(c).Some? <==> IsHex(c)
    ensures IsHex(c) ==> HexDigit(c) == Some(Nibble(c))
  {
    if HexDigit(c).Some? {
      assert c == LOWER_HEX[HexDigit(c).value] || c == UPPER_HEX[HexDigit(c).value];
    }
    if IsHex(c) {
      NibbleIs(Nibble(c));
    }
  }

  lemma NibbleIs(d: nat)
    requires d < 16
    ensures HexDigit(LOWER_HEX[d]) == Some(d) && HexDigit(UPPER_HEX[d]) == Some(d)
  {
  }

  lemma ShortIs(e: char)
    ensures Unescape(e).Some? <==> e in SHORT
    ensures forall k :: 0 <= k < |SHORT| && SHORT[k] == e ==> Unescape(e) == Some(SHORT_MEANS[k])
    ensures 'u' !in SHORT
  {
  }

  lemma FirstOf(t: string, i: nat, s: string)
    requires At(t, i, s) && s != ""
    ensures i < |t| && t[i] == s[0]
  {
    assert t[i] == t[i..i + |s|][0];
  }

  /** A run of blanks is skipped, up to what is no blank or the end. */
  lemma {:induction false} GapIsSkipped(t: string, i: nat, gap: string)
    requires Blank(gap) && At(t, i, gap)
    requires i + |gap| < |t| ==> t[i + |gap|] !in BLANKS
    ensures SkipSpace(t, i) == i + |gap|
    decreases |gap|
  {
    hide BLANKS;
    if gap == "" {
      if i < |t| {
        SpaceIsBlank(t[i]);
      }
    } else {
      FirstOf(t, i, gap);
      SpaceIsBlank(t[i]);
      AtSplit(t, i, [gap[0]], gap[1..]);
      assert gap == [gap[0]] + gap[1..];
      GapIsSkipped(t, i + 1, gap[1..]);
    }
  }

  /** White space is exactly the four characters, and all of a run is skipped. */
  lemma SkippedExactly(t: string, i: nat, j: nat)
    requires i <= j <= |t|
    ensures SkipSpace(t, i) == j <==> Blank(t[i..j]) && (j < |t| ==> t[j] !in BLANKS)
  {
    hide BLANKS;
    if SkipSpace(t, i) == j {
      forall k | i <= k < j ensures t[k] in BLANKS {
        SpaceIsBlank(t[k]);
      }
      if j < |t| {
        SpaceIsBlank(t[j]);
      }
    }
    if Blank(t[i..j]) && (j < |t| ==> t[j] !in BLANKS) {
      GapIsSkipped(t, i, t[i..j]);
    }
  }

  lemma NumberRunIs(t: string, i: nat, token: string)
    requires IsNumberText(token) && At(t, i, token)
    requires i + |token| < |t| ==> t[i + |token|] !in NUMBER_CHARS
    ensures NumberEnd(t, i) == i + |token| && t[i..i + |token|] == token
    ensures t[i] in NUMBER_CHARS
  {
    hide NUMBER_CHARS;
    NumberRunEnds(t, i, token);
    FirstOf(t, i, token);
  }

  lemma {:induction false} NumberRunEnds(t: string, i: nat, run: string)
    requires At(t, i, run) && forall k :: 0 <= k < |run| ==> run[k] in NUMBER_CHARS
    requires i + |run| < |t| ==> t[i + |run|] !in NUMBER_CHARS
    ensures NumberEnd(t, i) == i + |run|
    decreases |run|
  {
    hide NUMBER_CHARS;
    if run == "" {
      if i < |t| {
        NumberCharIs(t[i]);
      }
    } else {
      FirstOf(t, i, run);
      NumberCharIs(t[i]);
      AtSplit(t, i, [run[0]], run[1..]);
      assert run == [run[0]] + run[1..];
      NumberRunEnds(t, i + 1, run[1..]);
    }
  }

  // ----- strings -----

  lemma {:induction false} HexRunIs(hex: string, rest: string, acc: nat, any: bool)
    requires AllHex(hex) && (hex != "" || any) && (rest != "" ==> !IsHex(rest[0]))
    ensures HexRun(hex + rest, acc, any) == Some(HexValue(hex, acc))
    decreases |hex|
  {
    hide IsHex, HexDigit;
    if hex == "" {
      assert hex + rest == rest;
      if rest != "" {
        HexDigitIs(rest[0]);
      }
    } else {
      HexDigitIs(hex[0]);
      assert (hex + rest)[1..] == hex[1..] + rest;
      HexRunIs(hex[1..], rest, 16 * acc + Nibble(hex[0]), true);
    }
  }

  /** What a number may be so that n more hex digits leave it below 2^16. */
  function Room(n: nat): nat
    requires n <= 4
  {
    if n == 0 then 0x10000 else if n == 1 then 0x1000 else if n == 2 then 0x100 else if n == 3 then 0x10 else 1
  }

  lemma {:induction false} HexValueFits(hex: string, acc: nat)
    requires AllHex(hex) && |hex| <= 4 && acc < Room(|hex|)
    ensures HexValue(hex, acc) < 0x10000
    decreases |hex|
  {
    hide IsHex;
    if hex != "" {
      HexValueFits(hex[1..], 16 * acc + Nibble(hex[0]));
    }
  }

  /** The bytes of a `\u` escape are those of its code in section 3 of RFC 3629, in the fewest
      bytes that hold it. */
  lemma UnicodeIsUtf8(hex: string)
    requires AllHex(hex) && |hex| <= 4
    ensures Expresses(Utf8(HexValue(hex, 0)), HexValue(hex, 0))
  {
    hide Utf8, Expresses, AllHex, HexValue;
    HexValueFits(hex, 0);
    Utf8Expresses(HexValue(hex, 0));
  }

  predicate Follows(c: char) {
    0x80 <= c as int < 0xC0
  }

  predicate Expresses(u: string, code: nat) {
    if code < 0x80 then |u| == 1 && u[0] as int == code
    else if code < 0x800 then
      && |u| == 2 && 0xC0 <= u[0] as int < 0xE0 && Follows(u[1])
      && (u[0] as int - 0xC0) * 64 + (u[1] as int - 0x80) == code
    else
      && |u| == 3 && 0xE0 <= u[0] as int < 0xF0 && Follows(u[1]) && Follows(u[2])
      && (u[0] as int - 0xE0) * 4096 + (u[1] as int - 0x80) * 64 + (u[2] as int - 0x80) == code
  }

  lemma Utf8Expresses(code: nat)
    requires code < 0x10000
    ensures Expresses(Utf8(code), code)
  {
    var low, high := code % 64, code / 64;
    assert code == 64 * high + low;
    if 0x80 <= code < 0x800 {
      assert high % 32 == high;
    } else if 0x800 <= code {
      ThreeParts(code);
      var top := code / 4096;
      assert top < 16;
    }
  }

  lemma ThreeParts(code: nat)
    ensures code / 4096 == code / 64 / 64
    ensures code == 4096 * (code / 4096) + 64 * (code / 64 % 64) + code % 64
  {
    var a := code / 64;
    var q, r := a / 64, a % 64;
    assert code == 64 * a + code % 64 && a == 64 * q + r;
    assert code == 4096 * q + (64 * r + code % 64) && 64 * r + code % 64 < 4096;
  }

  lemma PieceIsRead(p: Piece, t: string, i: nat, out: string)
    requires PieceFits(p) && At(t, i, PieceText(p))
    ensures StringTail(t, i, out) == StringTail(t, i + |PieceText(p)|, out + PieceMeans(p))
  {
    hide HexRun, Utf8, Unescape;
    var s := PieceText(p);
    FirstOf(t, i, s);
    match p
    case Plain(c) =>
    case Short(k) =>
      assert t[i + 1] == t[i..i + 2][1];
      ShortIs(SHORT[k]);
    case Unicode(hex, rest) =>
      assert t[i + 1] == t[i..i + 6][1] == 'u';
      assert t[i + 2..i + 6] == t[i..i + 6][2..] == hex + rest;
      HexRunIs(hex, rest, 0, false);
  }

  lemma ClosingQuote(t: string, i: nat, out: string)
    requires At(t, i, "\"")
    ensures StringTail(t, i, out) == Ok(out, i + 1)
  {
    FirstOf(t, i, "\"");
  }

  lemma {:induction false} PiecesAreRead(ps: seq<Piece>, t: string, i: nat, out: string)
    requires PiecesFit(ps) && At(t, i, PiecesText(ps) + "\"")
    ensures StringTail(t, i, out) == Ok(out + PiecesMean(ps), i + |PiecesText(ps)| + 1)
    decreases |ps|
  {
    hide PieceText, PieceMeans, PieceFits, StringTail, At;
    if ps == [] {
      assert PiecesText(ps) + "\"" == "\"";
      ClosingQuote(t, i, out);
      assert out + PiecesMean(ps) == out;
    } else {
      AtSplitThree(t, i, PieceText(ps[0]), PiecesText(ps[1..]), "\"");
      PieceIsRead(ps[0], t, i, out);
      PiecesAreRead(ps[1..], t, i + |PieceText(ps[0])|, out + PieceMeans(ps[0]));
      Regroup(out, PieceMeans(ps[0]), PiecesMean(ps[1..]));
    }
  }

  lemma StringIsRead(ps: seq<Piece>, t: string, i: nat)
    requires PiecesFit(ps) && At(t, i, StringText(ps))
    ensures ParseString(t, i) == Ok(PiecesMean(ps), i + |StringText(ps)|)
    ensures t[i] == '"'
  {
    hide PiecesText, StringTail;
    FirstOf(t, i, StringText(ps));
    AtSplit(t, i, "\"", PiecesText(ps) + "\"");
    PiecesAreRead(ps, t, i + 1, "");
    assert "" + PiecesMean(ps) == PiecesMean(ps);
  }

  // ----- documents -----

  lemma DocOpens(d: Doc)
    requires DocFits(d)
    ensures DocText(d) != "" && DocText(d)[0] !in BLANKS && DocText(d)[0] != ']'
  {
    match d
    case DNumber(token) =>
      assert token[0] in NUMBER_CHARS;
      NumberIsNoBlank(token[0]);
    case _ =>
  }

  lemma NumberIsNoBlank(c: char)
    requires c in NUMBER_CHARS
    ensures c !in BLANKS && c !in "{[]\"tfn,:}"
  {
  }

  lemma BlankIsNoNumber(c: char)
    requires c in BLANKS || c in ",:]}"
    ensures c !in NUMBER_CHARS
  {
  }

  lemma NoNumberBehind(gap: string, c: char)
    requires Blank(gap) && c in ",:]}"
    ensures (gap + [c])[0] !in NUMBER_CHARS
  {
    BlankIsNoNumber((gap + [c])[0]);
  }

  lemma {:induction false} DocIsRead(d: Doc, t: string, i: nat)
    requires DocFits(d) && At(t, i, DocText(d))
    requires i + |DocText(d)| < |t| ==> t[i + |DocText(d)|] !in NUMBER_CHARS
    ensures ParseValue(t, i) == Ok(Meaning(d), i + |DocText(d)|)
    decreases d, 0
  {
    hide Members, Items, ParseString, SkipSpace, NumberEnd, NUMBER_CHARS, BLANKS;
    DocOpens(d);
    FirstOf(t, i, DocText(d));
    match d
    case DNull =>
    case DBool(b) =>
    case DNumber(token) =>
      NumberRunIs(t, i, token);
      NumberIsNoBlank(t[i]);
    case DStr(pieces) => StringIsRead(pieces, t, i);
    case DNoItems(gap) => EmptyIsRead(t, i, '[', gap, ']');
    case DItems(items) => ArrayIsRead(items, t, i);
    case DNoFields(gap) => EmptyIsRead(t, i, '{', gap, '}');
    case DFields(fields) => ObjectIsRead(fields, t, i);
  }

  lemma EmptyIsRead(t: string, i: nat, open: char, gap: string, close: char)
    requires Blank(gap) && At(t, i, [open] + (gap + [close])) && (close == ']' || close == '}')
    ensures SkipSpace(t, i + 1) == i + 1 + |gap| < |t| && t[i + 1 + |gap|] == close
  {
    AtSplit(t, i, [open], gap + [close]);
    AtSplit(t, i + 1, gap, [close]);
    FirstOf(t, i + 1 + |gap|, [close]);
    GapIsSkipped(t, i + 1, gap);
  }

  lemma SkippedIsDone(t: string, i: nat)
    requires i <= |t|
    ensures SkipSpace(t, SkipSpace(t, i)) == SkipSpace(t, i)
  {
  }

  lemma SameSpaced(t: string, i: nat)
    requires i <= |t|
    ensures ParseSpaced(t, SkipSpace(t, i)) == ParseSpaced(t, i)
    ensures ParseMember(t, SkipSpace(t, i)) == ParseMember(t, i)
  {
    hide ParseValue, ParseString, SkipSpace;
    SkippedIsDone(t, i);
  }

  /** White space in front of the first item or member may be skipped beforehand. */
  lemma SkipTwice(t: string, i: nat)
    requires i <= |t|
    ensures SkipSpace(t, SkipSpace(t, i)) == SkipSpace(t, i)
    ensures ItemTurn(t, SkipSpace(t, i)) == ItemTurn(t, i)
    ensures MemberTurn(t, SkipSpace(t, i)) == MemberTurn(t, i)
  {
    hide ParseSpaced, ParseMember;
    SkippedIsDone(t, i);
    SameSpaced(t, i);
  }

  lemma {:induction false} ArrayIsRead(items: seq<Item>, t: string, i: nat)
    requires items != [] && ItemsFit(items) && At(t, i, "[" + (ItemsText(items) + "]"))
    ensures ParseValue(t, i) == Ok(Arr(ItemsMean(items)), i + 2 + |ItemsText(items)|)
    decreases items, 3
  {
    hide ItemTurn, SkipSpace, ItemsText, ItemsMean, BLANKS, ItemsFit;
    FirstOf(t, i, "[" + (ItemsText(items) + "]"));
    AtSplit(t, i, "[", ItemsText(items) + "]");
    ItemsOpen(items, t, i + 1);
    SkipTwice(t, i + 1);
    ItemsAreRead(items, [], t, i + 1);
    assert [] + ItemsMean(items) == ItemsMean(items);
  }

  lemma ItemsOpen(items: seq<Item>, t: string, i: nat)
    requires items != [] && ItemsFit(items) && At(t, i, ItemsText(items) + "]")
    ensures SkipSpace(t, i) < |t| && t[SkipSpace(t, i)] != ']'
  {
    hide DocText, DocFits, Blank, SkipSpace;
    var it := items[0];
    assert ItemFits(it);
    var rest := it.after + if |items| == 1 then "]" else "," + ItemsText(items[1..]) + "]";
    assert ItemsText(items) + "]" == it.before + (DocText(it.doc) + rest);
    ItemOpens(it, t, i, rest);
  }

  lemma ItemOpens(it: Item, t: string, i: nat, rest: string)
    requires ItemFits(it) && At(t, i, it.before + (DocText(it.doc) + rest))
    ensures var k := i + |it.before|;
      SkipSpace(t, i) == k < |t| && t[k] != ']' && At(t, k, DocText(it.doc)) && At(t, k + |DocText(it.doc)|, rest)
  {
    hide DocText, DocFits, SkipSpace, BLANKS;
    var k := i + |it.before|;
    AtSplit(t, i, it.before, DocText(it.doc) + rest);
    AtSplit(t, k, DocText(it.doc), rest);
    DocOpens(it.doc);
    FirstOf(t, k, DocText(it.doc));
    GapIsSkipped(t, i, it.before);
  }

  /** An item with the blanks around it, up to a character that is neither blank nor number. */
  lemma {:induction false} ItemIsRead(it: Item, t: string, i: nat, c: char)
    requires ItemFits(it) && At(t, i, ItemText(it) + [c]) && c in ",:]}"
    ensures ParseSpaced(t, i).Ok? && ParseSpaced(t, i).value == ItemMeans(it)
    ensures var j := i + |ItemText(it)|; SkipSpace(t, ParseSpaced(t, i).next) == j < |t| && t[j] == c
    decreases it, 0
  {
    hide DocText, DocFits, SkipSpace, BLANKS, NUMBER_CHARS, ParseValue, Blank, At;
    var k, rest := i + |it.before|, it.after + [c];
    var k1 := k + |DocText(it.doc)|;
    RegroupItem(it.before, DocText(it.doc), it.after, [c]);
    ItemOpens(it, t, i, rest);
    FirstOf(t, k1, rest);
    NoNumberBehind(it.after, c);
    DocIsRead(it.doc, t, k);
    AtSplit(t, k1, it.after, [c]);
    FirstOf(t, k1 + |it.after|, [c]);
    CloserIsNoBlank(c);
    GapIsSkipped(t, k1, it.after);
  }

  lemma RegroupItem(a: string, b: string, c: string, d: string)
    ensures a + (b + c) + d == a + (b + (c + d))
  {
  }

  lemma CloserIsNoBlank(c: char)
    requires c in ",:]}"
    ensures c !in BLANKS
  {
  }

  lemma {:induction false} ItemEndsTurn(it: Item, t: string, i: nat, c: char)
    requires ItemFits(it) && At(t, i, ItemText(it) + [c]) && (c == ',' || c == ']')
    ensures i <= |t|
    ensures var j := i + |ItemText(it)| + 1;
      ItemTurn(t, i) == if c == ',' then More(ItemMeans(it), j) else Last(ItemMeans(it), j)
    decreases it, 1
  {
    hide ParseSpaced, SkipSpace, ItemText, ItemFits, ItemMeans;
    ItemIsRead(it, t, i, c);
  }

  lemma FirstItemFits(items: seq<Item>)
    requires items != [] && ItemsFit(items)
    ensures ItemFits(items[0]) && ItemsFit(items[1..])
  {
  }

  lemma {:induction false} ItemsAreRead(items: seq<Item>, acc: seq<Json>, t: string, i: nat)
    requires items != [] && ItemsFit(items) && At(t, i, ItemsText(items) + "]")
    ensures Items(t, i, acc) == Ok(Arr(acc + ItemsMean(items)), i + |ItemsText(items)| + 1)
    decreases items, 2
  {
    hide ItemText, ItemTurn, ItemFits, ItemsFit, At, ItemMeans;
    FirstItemFits(items);
    var text := ItemText(items[0]);
    if |items| == 1 {
      assert ItemsMean(items) == [ItemMeans(items[0])];
      ItemEndsTurn(items[0], t, i, ']');
    } else {
      var rest := items[1..];
      ItemsSplit(text, ItemsText(rest), t, i);
      ItemEndsTurn(items[0], t, i, ',');
      ItemsAreRead(rest, acc + [ItemMeans(items[0])], t, i + |text| + 1);
      Regroup(acc, [ItemMeans(items[0])], ItemsMean(rest));
    }
  }

  lemma ItemsSplit(text: string, rest: string, t: string, i: nat)
    requires At(t, i, text + ("," + rest) + "]")
    ensures At(t, i, text + [',']) && At(t, i + |text| + 1, rest + "]")
  {
    assert text + ("," + rest) + "]" == (text + ",") + (rest + "]");
    AtSplit(t, i, text + ",", rest + "]");
  }

  // ----- objects -----

  lemma {:induction false} ObjectIsRead(fields: seq<Field>, t: string, i: nat)
    requires fields != [] && FieldsFit(fields) && At(t, i, "{" + (FieldsText(fields) + "}"))
    ensures ParseValue(t, i) == Ok(Obj(FieldsMean(fields)), i + 2 + |FieldsText(fields)|)
    decreases fields, 3
  {
    hide MemberTurn, SkipSpace, FieldsText, FieldsMean, BLANKS, FieldsFit;
    FirstOf(t, i, "{" + (FieldsText(fields) + "}"));
    AtSplit(t, i, "{", FieldsText(fields) + "}");
    FieldsOpen(fields, t, i + 1);
    SkipTwice(t, i + 1);
    FieldsAreRead(fields, [], t, i + 1);
    assert [] + FieldsMean(fields) == FieldsMean(fields);
  }

  lemma FieldsOpen(fields: seq<Field>, t: string, i: nat)
    requires fields != [] && FieldsFit(fields) && At(t, i, FieldsText(fields) + "}")
    ensures SkipSpace(t, i) < |t| && t[SkipSpace(t, i)] != '}'
  {
    hide StringText, PiecesFit, Blank, SkipSpace, ItemText, ItemFits;
    var f := fields[0];
    assert FieldFits(f);
    var rest := f.behindKey + (":" + ItemText(f.item))
                + if |fields| == 1 then "}" else "," + FieldsText(fields[1..]) + "}";
    assert FieldsText(fields) + "}" == f.before + (StringText(f.key) + rest);
    FieldOpens(f, t, i, rest);
  }

  lemma FieldOpens(f: Field, t: string, i: nat, rest: string)
    requires FieldFits(f) && At(t, i, f.before + (StringText(f.key) + rest))
    ensures var k := i + |f.before|;
      SkipSpace(t, i) == k < |t| && t[k] == '"' && At(t, k, StringText(f.key)) && At(t, k + |StringText(f.key)|, rest)
  {
    hide SkipSpace, PiecesText, ItemFits;
    var k := i + |f.before|;
    AtSplit(t, i, f.before, StringText(f.key) + rest);
    AtSplit(t, k, StringText(f.key), rest);
    FirstOf(t, k, StringText(f.key));
    GapIsSkipped(t, i, f.before);
  }

  lemma KeyIsRead(f: Field, t: string, i: nat, rest: string)
    requires FieldFits(f) && At(t, i, f.before + (StringText(f.key) + (f.behindKey + (":" + rest))))
    ensures var j := i + |f.before| + |StringText(f.key)| + |f.behindKey| + 1;
      ParseKey(t, i) == Ok(PiecesMean(f.key), j) && At(t, j, rest)
  {
    hide StringText, PiecesFit, SkipSpace, BLANKS, ParseString, ItemFits, At, Blank;
    var k := i + |f.before|;
    var k1 := k + |StringText(f.key)|;
    var k2 := k1 + |f.behindKey|;
    FieldOpens(f, t, i, f.behindKey + (":" + rest));
    StringIsRead(f.key, t, k);
    AtSplit(t, k1, f.behindKey, ":" + rest);
    FirstOf(t, k2, ":" + rest);
    CloserIsNoBlank(':');
    GapIsSkipped(t, k1, f.behindKey);
    AtSplit(t, k2, ":", rest);
  }

  lemma {:induction false} FieldIsRead(f: Field, t: string, i: nat, c: char)
    requires FieldFits(f) && At(t, i, FieldText(f) + [c]) && c in ",:]}"
    ensures ParseMember(t, i).Ok? && ParseMember(t, i).value == FieldMeans(f)
    ensures var j := i + |FieldText(f)|; SkipSpace(t, ParseMember(t, i).next) == j < |t| && t[j] == c
    decreases f, 0
  {
    hide StringText, PiecesFit, SkipSpace, ItemText, ItemFits, ParseKey, ParseSpaced, Blank;
    RegroupField(f.before, StringText(f.key), f.behindKey, ItemText(f.item), [c]);
    KeyIsRead(f, t, i, ItemText(f.item) + [c]);
    ItemIsRead(f.item, t, i + |f.before| + |StringText(f.key)| + |f.behindKey| + 1, c);
  }

  lemma RegroupField(a: string, b: string, c: string, d: string, e: string)
    ensures a + (b + (c + (":" + d))) + e == a + (b + (c + (":" + (d + e))))
  {
  }

  lemma {:induction false} FieldEndsTurn(f: Field, t: string, i: nat, c: char)
    requires FieldFits(f) && At(t, i, FieldText(f) + [c]) && (c == ',' || c == '}')
    ensures i <= |t|
    ensures var j := i + |FieldText(f)| + 1;
      MemberTurn(t, i) == if c == ',' then More(FieldMeans(f), j) else Last(FieldMeans(f), j)
    decreases f, 1
  {
    hide ParseMember, SkipSpace, FieldText, FieldFits, FieldMeans;
    FieldIsRead(f, t, i, c);
  }

  lemma FirstFieldFits(fields: seq<Field>)
    requires fields != [] && FieldsFit(fields)
    ensures FieldFits(fields[0]) && FieldsFit(fields[1..])
  {
  }

  lemma {:induction false} FieldsAreRead(fields: seq<Field>, acc: seq<Member>, t: string, i: nat)
    requires fields != [] && FieldsFit(fields) && At(t, i, FieldsText(fields) + "}")
    ensures Members(t, i, acc) == Ok(Obj(acc + FieldsMean(fields)), i + |FieldsText(fields)| + 1)
    decreases fields, 2
  {
    hide FieldText, MemberTurn, FieldFits, FieldsFit, At, FieldMeans;
    FirstFieldFits(fields);
    var text := FieldText(fields[0]);
    if |fields| == 1 {
      assert FieldsMean(fields) == [FieldMeans(fields[0])];
      FieldEndsTurn(fields[0], t, i, '}');
    } else {
      var rest := fields[1..];
      FieldsSplit(text, FieldsText(rest), t, i);
      FieldEndsTurn(fields[0], t, i, ',');
      FieldsAreRead(rest, acc + [FieldMeans(fields[0])], t, i + |text| + 1);
      Regroup(acc, [FieldMeans(fields[0])], FieldsMean(rest));
    }
  }

  lemma FieldsSplit(text: string, rest: string, t: string, i: nat)
    requires At(t, i, text + ("," + rest) + "}")
    ensures At(t, i, text + [',']) && At(t, i + |text| + 1, rest + "}")
  {
    assert text + ("," + rest) + "}" == (text + ",") + (rest + "}");
    AtSplit(t, i, text + ",", rest + "}");
  }

  // ----- main result -----

  /** Whatever the white space around the tokens and however its strings are spelled, a document
      is read as what it means. */
  lemma EveryDocumentIsAccepted(d: Doc, before: string, after: string)
    requires DocFits(d) && Blank(before) && Blank(after)
    ensures ParseJson(before + DocText(d) + after) == Ok(Meaning(d), |before + DocText(d) + after|)
  {
    hide DocFits, DocText, SkipSpace, ParseValue, BLANKS, NUMBER_CHARS;
    var t, it := before + DocText(d) + after, Item(before, d, after);
    var k := |before|;
    var k1 := k + |DocText(d)|;
    Regroup(before, DocText(d), after);
    AtStart(t, t);
    ItemOpens(it, t, 0, after);
    if k1 < |t| {
      FirstOf(t, k1, after);
      BlankIsNoNumber(t[k1]);
    }
    DocIsRead(d, t, k);
    GapIsSkipped(t, k1, after);
  }
}
