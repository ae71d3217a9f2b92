/** Nothing else is accepted: whatever `parse_json` (loadtests/json_value.cpp) takes is a document of
    the grammar between two runs of white space, and it is read as what that document means. */
module JsonAccepted {
  import opened Text
  import opened Json
  import opened JsonGrammar

  lemma JoinAt(t: string, i: nat, a: string, b: string)
    requires At(t, i, a) && At(t, i + |a|, b)
    ensures At(t, i, a + b)
  {
    AtSplit(t, i, a, b);
  }

  lemma OneAt(t: string, i: nat)
    requires i < |t|
    ensures At(t, i, [t[i]])
  {
  }

  /** The run of white space that was skipped. */
  lemma GapWasThere(t: string, i: nat) returns (gap: string)
    requires i <= |t|
    ensures Blank(gap) && At(t, i, gap) && SkipSpace(t, i) == i + |gap|
  {
    gap := t[i..SkipSpace(t, i)];
    SkippedExactly(t, i, SkipSpace(t, i));
  }

  // ----- strings -----

  lemma {:induction false} HexRunSplits(s: string, acc: nat, any: bool) returns (hex: string, rest: string)
    requires HexRun(s, acc, any).Some?
    ensures s == hex + rest && AllHex(hex) && (hex != "" || any) && (rest != "" ==> !IsHex(rest[0]))
    decreases |s|
  {
    hide IsHex, HexDigit;
    if s != "" {
      HexDigitIs(s[0]);
    }
    if s != "" && IsHex(s[0]) {
      var hex1;
      hex1, rest := HexRunSplits(s[1..], 16 * acc + HexDigit(s[0]).value, true);
      hex := [s[0]] + hex1;
      assert s == [s[0]] + s[1..];
    } else {
      hex, rest := "", s;
    }
  }

  lemma ShortOf(e: char) returns (k: nat)
    requires Unescape(e).Some?
    ensures k < |SHORT| && SHORT[k] == e && Unescape(e) == Some(SHORT_MEANS[k])
  {
    ShortIs(e);
    k :| k < |SHORT| && SHORT[k] == e;
  }

  /** One piece of a string that goes on behind it. */
  lemma PieceWasSpelled(t: string, i: nat, out: string) returns (p: Piece)
    requires i < |t| && StringTail(t, i, out).Ok? && t[i] != '"'
    ensures PieceFits(p) && At(t, i, PieceText(p))
  {
    hide HexRun, Unescape, SHORT, IsHex;
    if t[i] != '\\' {
      p := Plain(t[i]);
    } else if t[i + 1] == 'u' {
      var hex, rest := HexRunSplits(t[i + 2..i + 6], 0, false);
      p := Unicode(hex, rest);
      assert t[i..i + 6] == "\\u" + t[i + 2..i + 6];
      Regroup("\\u", hex, rest);
    } else {
      var k := ShortOf(t[i + 1]);
      p := Short(k);
    }
  }

  lemma {:induction false} PiecesWereSpelled(t: string, i: nat, out: string) returns (ps: seq<Piece>)
    requires i <= |t| && StringTail(t, i, out).Ok?
    ensures PiecesFit(ps) && At(t, i, PiecesText(ps) + "\"")
    ensures StringTail(t, i, out) == Ok(out + PiecesMean(ps), i + |PiecesText(ps)| + 1)
    decreases |t| - i
  {
    hide PieceText, PieceMeans, PieceFits;
    if t[i] == '"' {
      ps := [];
      assert PiecesText(ps) + "\"" == "\"" && out + PiecesMean(ps) == out;
    } else {
      var p := PieceWasSpelled(t, i, out);
      PieceIsRead(p, t, i, out);
      var rest := PiecesWereSpelled(t, i + |PieceText(p)|, out + PieceMeans(p));
      ps := [p] + rest;
      assert ps[1..] == rest;
      JoinAt(t, i, PieceText(p), PiecesText(rest) + "\"");
      Regroup(PieceText(p), PiecesText(rest), "\"");
      Regroup(out, PieceMeans(p), PiecesMean(rest));
    }
  }

  lemma StringWasSpelled(t: string, i: nat) returns (ps: seq<Piece>)
    requires i <= |t| && ParseString(t, i).Ok?
    ensures PiecesFit(ps) && At(t, i, StringText(ps))
    ensures ParseString(t, i) == Ok(PiecesMean(ps), i + |StringText(ps)|)
  {
    hide StringTail, PiecesText, PiecesMean, PiecesFit;
    ps := PiecesWereSpelled(t, i + 1, "");
    OneAt(t, i);
    JoinAt(t, i, "\"", PiecesText(ps) + "\"");
    assert "" + PiecesMean(ps) == PiecesMean(ps);
  }

  // ----- values -----

  lemma TokenWasSpelled(t: string, i: nat)
    requires i <= |t| && i < NumberEnd(t, i)
    ensures IsNumberText(t[i..NumberEnd(t, i)])
  {
    hide NUMBER_CHARS, IsNumberChar;
    forall k | i <= k < NumberEnd(t, i) ensures t[k] in NUMBER_CHARS {
      NumberCharIs(t[k]);
    }
  }

  lemma EmptyWasSpelled(t: string, i: nat) returns (gap: string)
    requires i < |t| && SkipSpace(t, i + 1) < |t|
    ensures Blank(gap) && At(t, i, [t[i]] + (gap + [t[SkipSpace(t, i + 1)]]))
    ensures SkipSpace(t, i + 1) == i + 1 + |gap|
  {
    hide SkipSpace, Blank;
    var j := SkipSpace(t, i + 1);
    gap := GapWasThere(t, i + 1);
    OneAt(t, i);
    OneAt(t, j);
    JoinAt(t, i + 1, gap, [t[j]]);
    JoinAt(t, i, [t[i]], gap + [t[j]]);
  }

  lemma {:induction false} ValueWasSpelled(t: string, i: nat) returns (d: Doc)
    requires i <= |t| && ParseValue(t, i).Ok?
    ensures DocFits(d) && At(t, i, DocText(d))
    ensures ParseValue(t, i) == Ok(Meaning(d), i + |DocText(d)|)
    decreases |t| - i, 0
  {
    hide Members, Items, ParseString, SkipSpace, NumberEnd, IsNumberText, Blank;
    if t[i] == '{' {
      var j := SkipSpace(t, i + 1);
      if j < |t| && t[j] == '}' {
        var gap := EmptyWasSpelled(t, i);
        d := DNoFields(gap);
      } else {
        var fields := ObjectWasSpelled(t, i);
        d := DFields(fields);
      }
    } else if t[i] == '[' {
      var j := SkipSpace(t, i + 1);
      if j < |t| && t[j] == ']' {
        var gap := EmptyWasSpelled(t, i);
        d := DNoItems(gap);
      } else {
        var items := ArrayWasSpelled(t, i);
        d := DItems(items);
      }
    } else if t[i] == '"' {
      var ps := StringWasSpelled(t, i);
      d := DStr(ps);
    } else if t[i] == 't' || t[i] == 'f' {
      d := DBool(At(t, i, "true"));
    } else if t[i] == 'n' {
      d := DNull;
    } else {
      TokenWasSpelled(t, i);
      d := DNumber(t[i..NumberEnd(t, i)]);
    }
  }

  lemma {:induction false} ArrayWasSpelled(t: string, i: nat) returns (items: seq<Item>)
    requires i < |t| && t[i] == '['
    requires Items(t, SkipSpace(t, i + 1), []).Ok?
    ensures items != [] && ItemsFit(items) && At(t, i, "[" + (ItemsText(items) + "]"))
    ensures Items(t, SkipSpace(t, i + 1), []) == Ok(Arr(ItemsMean(items)), i + 2 + |ItemsText(items)|)
    decreases |t| - i, 0, 0
  {
    hide ItemTurn, SkipSpace, ItemsText, ItemsMean, ItemsFit;
    SkipTwice(t, i + 1);
    items := ItemsWereSpelled(t, i + 1, []);
    OneAt(t, i);
    JoinAt(t, i, "[", ItemsText(items) + "]");
    assert [] + ItemsMean(items) == ItemsMean(items);
  }

  lemma {:induction false} ItemWasSpelled(t: string, i: nat) returns (it: Item)
    requires i <= |t| && ParseSpaced(t, i).Ok?
    ensures ItemFits(it) && At(t, i, ItemText(it))
    ensures ParseSpaced(t, i).value == ItemMeans(it)
    ensures SkipSpace(t, ParseSpaced(t, i).next) == i + |ItemText(it)| <= |t|
    decreases |t| - i, 1
  {
    hide ParseValue, SkipSpace, DocText, DocFits, Blank;
    var before := GapWasThere(t, i);
    var k := i + |before|;
    var d := ValueWasSpelled(t, k);
    var k1 := k + |DocText(d)|;
    var after := GapWasThere(t, k1);
    it := Item(before, d, after);
    JoinAt(t, k, DocText(d), after);
    JoinAt(t, i, before, DocText(d) + after);
  }

  lemma ItemsCons(it: Item, rest: seq<Item>)
    requires ItemFits(it) && rest != [] && ItemsFit(rest)
    ensures ItemsFit([it] + rest) && ItemsText([it] + rest) == ItemText(it) + ("," + ItemsText(rest))
    ensures ItemsMean([it] + rest) == [ItemMeans(it)] + ItemsMean(rest)
  {
    assert ([it] + rest)[1..] == rest;
  }

  lemma OneItem(it: Item)
    requires ItemFits(it)
    ensures ItemsFit([it]) && ItemsText([it]) == ItemText(it) && ItemsMean([it]) == [ItemMeans(it)]
  {
  }

  lemma {:induction false} ItemsWereSpelled(t: string, i: nat, acc: seq<Json>) returns (items: seq<Item>)
    requires i <= |t| && Items(t, i, acc).Ok?
    ensures items != [] && ItemsFit(items) && At(t, i, ItemsText(items) + "]")
    ensures Items(t, i, acc) == Ok(Arr(acc + ItemsMean(items)), i + |ItemsText(items)| + 1)
    decreases |t| - i, 2
  {
    hide ParseSpaced, SkipSpace, ItemText, ItemFits, ItemMeans, ItemsFit, ItemsText, ItemsMean, At;
    var it := ItemWasSpelled(t, i);
    var j := i + |ItemText(it)|;
    OneAt(t, j);
    JoinAt(t, i, ItemText(it), [t[j]]);
    if t[j] == ',' {
      var rest := ItemsWereSpelled(t, j + 1, acc + [ItemMeans(it)]);
      items := [it] + rest;
      ItemsCons(it, rest);
      ItemsJoin(ItemText(it), ItemsText(rest), t, i);
      Regroup(acc, [ItemMeans(it)], ItemsMean(rest));
    } else {
      items := [it];
      OneItem(it);
    }
  }

  lemma ItemsJoin(text: string, rest: string, t: string, i: nat)
    requires At(t, i, text + [',']) && At(t, i + |text| + 1, rest + "]")
    ensures At(t, i, text + ("," + rest) + "]")
  {
    JoinAt(t, i, text + ",", rest + "]");
    assert text + ("," + rest) + "]" == (text + ",") + (rest + "]");
  }

  lemma {:induction false} ObjectWasSpelled(t: string, i: nat) returns (fields: seq<Field>)
    requires i < |t| && t[i] == '{'
    requires Members(t, SkipSpace(t, i + 1), []).Ok?
    ensures fields != [] && FieldsFit(fields) && At(t, i, "{" + (FieldsText(fields) + "}"))
    ensures Members(t, SkipSpace(t, i + 1), []) == Ok(Obj(FieldsMean(fields)), i + 2 + |FieldsText(fields)|)
    decreases |t| - i, 0, 0
  {
    hide MemberTurn, SkipSpace, FieldsText, FieldsMean, FieldsFit;
    SkipTwice(t, i + 1);
    fields := FieldsWereSpelled(t, i + 1, []);
    OneAt(t, i);
    JoinAt(t, i, "{", FieldsText(fields) + "}");
    assert [] + FieldsMean(fields) == FieldsMean(fields);
  }

  lemma KeyWasSpelled(t: string, i: nat) returns (before: string, key: seq<Piece>, behind: string)
    requires i <= |t| && ParseKey(t, i).Ok?
    ensures Blank(before) && PiecesFit(key) && Blank(behind)
    ensures At(t, i, before + (StringText(key) + (behind + ":")))
    ensures ParseKey(t, i) == Ok(PiecesMean(key), i + |before + (StringText(key) + (behind + ":"))|)
  {
    hide SkipSpace, ParseString, StringText, PiecesFit, PiecesMean, Blank;
    before := GapWasThere(t, i);
    var k := i + |before|;
    key := StringWasSpelled(t, k);
    var k1 := k + |StringText(key)|;
    behind := GapWasThere(t, k1);
    var k2 := k1 + |behind|;
    OneAt(t, k2);
    JoinAt(t, k1, behind, ":");
    JoinAt(t, k, StringText(key), behind + ":");
    JoinAt(t, i, before, StringText(key) + (behind + ":"));
  }

  lemma {:induction false} FieldWasSpelled(t: string, i: nat) returns (f: Field)
    requires i <= |t| && ParseMember(t, i).Ok?
    ensures FieldFits(f) && At(t, i, FieldText(f))
    ensures ParseMember(t, i).value == FieldMeans(f)
    ensures SkipSpace(t, ParseMember(t, i).next) == i + |FieldText(f)| <= |t|
    decreases |t| - i, 1
  {
    hide ParseKey, ParseSpaced, SkipSpace, StringText, PiecesFit, PiecesMean, ItemText, ItemFits, ItemMeans, Blank;
    var before, key, behind := KeyWasSpelled(t, i);
    var opening := before + (StringText(key) + (behind + ":"));
    var it := ItemWasSpelled(t, i + |opening|);
    f := Field(before, key, behind, it);
    JoinAt(t, i, opening, ItemText(it));
    RegroupKey(before, StringText(key), behind, ItemText(it));
  }

  lemma RegroupKey(a: string, b: string, c: string, d: string)
    ensures a + (b + (c + ":")) + d == a + (b + (c + (":" + d)))
  {
  }

  lemma FieldsCons(f: Field, rest: seq<Field>)
    requires FieldFits(f) && rest != [] && FieldsFit(rest)
    ensures FieldsFit([f] + rest) && FieldsText([f] + rest) == FieldText(f) + ("," + FieldsText(rest))
    ensures FieldsMean([f] + rest) == [FieldMeans(f)] + FieldsMean(rest)
  {
    assert ([f] + rest)[1..] == rest;
  }

  lemma OneField(f: Field)
    requires FieldFits(f)
    ensures FieldsFit([f]) && FieldsText([f]) == FieldText(f) && FieldsMean([f]) == [FieldMeans(f)]
  {
  }

  lemma {:induction false} FieldsWereSpelled(t: string, i: nat, acc: seq<Member>) returns (fields: seq<Field>)
    requires i <= |t| && Members(t, i, acc).Ok?
    ensures fields != [] && FieldsFit(fields) && At(t, i, FieldsText(fields) + "}")
    ensures Members(t, i, acc) == Ok(Obj(acc + FieldsMean(fields)), i + |FieldsText(fields)| + 1)
    decreases |t| - i, 2
  {
    hide ParseMember, SkipSpace, FieldText, FieldFits, FieldMeans, FieldsFit, FieldsText, FieldsMean, At;
    var f := FieldWasSpelled(t, i);
    var j := i + |FieldText(f)|;
    OneAt(t, j);
    JoinAt(t, i, FieldText(f), [t[j]]);
    if t[j] == ',' {
      var rest := FieldsWereSpelled(t, j + 1, acc + [FieldMeans(f)]);
      fields := [f] + rest;
      FieldsCons(f, rest);
      FieldsJoin(FieldText(f), FieldsText(rest), t, i);
      Regroup(acc, [FieldMeans(f)], FieldsMean(rest));
    } else {
      fields := [f];
      OneField(f);
    }
  }

  lemma FieldsJoin(text: string, rest: string, t: string, i: nat)
    requires At(t, i, text + [',']) && At(t, i + |text| + 1, rest + "}")
    ensures At(t, i, text + ("," + rest) + "}")
  {
    JoinAt(t, i, text + ",", rest + "}");
    assert text + ("," + rest) + "}" == (text + ",") + (rest + "}");
  }

  // ----- main result -----

  ghost predicate IsDocument(t: string, before: string, d: Doc, after: string) {
    DocFits(d) && Blank(before) && Blank(after) && t == before + DocText(d) + after
  }

  lemma AcceptedWasSpelled(t: string) returns (before: string, d: Doc, after: string)
    requires ParseJson(t).Ok?
    ensures IsDocument(t, before, d, after) && ParseJson(t).value == Meaning(d)
  {
    hide ParseSpaced, SkipSpace, DocText, DocFits, Blank;
    var it := ItemWasSpelled(t, 0);
    before, d, after := it.before, it.doc, it.after;
    assert t == ItemText(it);
    Regroup(before, DocText(d), after);
  }

  /** `parse_json` accepts a text exactly when it is a document of the grammar with white space
      around it. */
  lemma AcceptedExactly(t: string)
    ensures ParseJson(t).Ok? <==> exists before, d, after :: IsDocument(t, before, d, after)
  {
    if ParseJson(t).Ok? {
      var before, d, after := AcceptedWasSpelled(t);
      assert IsDocument(t, before, d, after);
    }
    if exists before, d, after :: IsDocument(t, before, d, after) {
      var before, d, after :| IsDocument(t, before, d, after);
      EveryDocumentIsAccepted(d, before, after);
    }
  }
}
