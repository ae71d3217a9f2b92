/** Parsing undoes printing: every tree that the harness can print compactly comes back from
    `parse_json` as it was (benchmarks/runner/json_util.hpp, loadtests/json_value.cpp). */
module JsonRoundTrip {
  import opened Text
  import opened Json

  /** A number token that the writer can produce: not empty, only number characters. */
  predicate IsToken(s: string) {
    s != "" && forall i :: 0 <= i < |s| ==> IsNumberChar(s[i])
  }

  predicate Printable(v: Json) {
    match v
    case Number(token) => IsToken(token)
    case Arr(items) => forall i :: 0 <= i < |items| ==> Printable(items[i])
    case Obj(members) => forall i :: 0 <= i < |members| ==> Printable(members[i].value)
    case _ => true
  }

  /** Unsigned integers print as tokens. */
  lemma DecimalIsToken(n: nat)
    ensures IsToken(Decimal(n))
  {
  }

  // ----- strings -----

  /** One printed character is read back as that character. */
  lemma EscapeIsRead(c: char, t: string, i: nat, out: string)
    requires i <= |t| && At(t, i, Escape(c))
    ensures StringTail(t, i, out) == StringTail(t, i + |Escape(c)|, out + [c])
  {
    var e := Escape(c);
    assert forall k {:trigger e[k]} :: 0 <= k < |e| ==> t[i + k] == t[i..i + |e|][k] == e[k];
    assert t[i] == e[0];
    if |e| == 2 {
      assert t[i + 1] == e[1];
    } else if |e| == 6 {
      assert e[0] == '\\' && t[i + 1] == e[1] == 'u';
      assert t[i + 2..i + 6] == e[2..6] == "00" + [HEX[c as int / 16], HEX[c as int % 16]];
      HexOfControl(c);
      assert Utf8(c as int) == [c];
    } else {
      assert e == [c] && c != '"' && c != '\\';
    }
  }

  lemma HexOfControl(c: char)
    requires c < ' '
    ensures HexRun("00" + [HEX[c as int / 16], HEX[c as int % 16]], 0, false) == Some(c as int)
  {
    var hi, lo := c as int / 16, c as int % 16;
    var h := "00" + [HEX[hi], HEX[lo]];
    HexDigitOfHex(hi);
    HexDigitOfHex(lo);
    assert h[1..][1..][1..][1..] == "";
    assert h[1..][1..][1..][0] == HEX[lo] && h[1..][1..][0] == HEX[hi];
    assert HexRun(h[1..][1..][1..], hi, true) == HexRun("", 16 * hi + lo, true);
    assert HexRun(h[1..][1..], 0, true) == HexRun(h[1..][1..][1..], hi, true);
    assert HexRun(h[1..], 0, true) == HexRun(h[1..][1..], 0, true);
  }

  lemma HexDigitOfHex(d: nat)
    requires d < 16
    ensures HexDigit(HEX[d]) == Some(d)
  {
  }

  lemma FirstIsRead(s: string, t: string, i: nat, out: string) returns (j: nat)
    requires s != "" && i <= |t| && At(t, i, Escaped(s) + "\"")
    ensures i <= j <= |t| && j + |Escaped(s[1..])| == i + |Escaped(s)|
    ensures At(t, j, Escaped(s[1..]) + "\"")
    ensures StringTail(t, i, out) == StringTail(t, j, out + [s[0]])
  {
    hide StringTail, Escape;
    j := i + |Escape(s[0])|;
    AtSplitThree(t, i, Escape(s[0]), Escaped(s[1..]), "\"");
    EscapeIsRead(s[0], t, i, out);
  }

  lemma {:induction false} EscapedIsRead(s: string, t: string, i: nat, out: string)
    requires i <= |t| && At(t, i, Escaped(s) + "\"")
    ensures StringTail(t, i, out) == Ok(out + s, i + |Escaped(s)| + 1)
    decreases |s|
  {
    if s == "" {
      assert t[i] == t[i..i + 1][0] == '"';
      assert out + s == out;
    } else {
      var j := FirstIsRead(s, t, i, out);
      EscapedIsRead(s[1..], t, j, out + [s[0]]);
      MoveFirst(out, s);
    }
  }

  lemma QuotedIsRead(s: string, t: string, i: nat)
    requires i <= |t| && At(t, i, Quoted(s))
    ensures ParseString(t, i) == Ok(s, i + |Quoted(s)|)
  {
    assert Quoted(s) == "\"" + (Escaped(s) + "\"");
    AtSplit(t, i, "\"", Escaped(s) + "\"");
    assert t[i] == t[i..i + 1][0] == '"';
    EscapedIsRead(s, t, i + 1, "");
    assert "" + s == s;
  }

  // ----- values -----

  /** No printed value starts with white space, and each kind starts with its own character. */
  lemma PrintOpens(v: Json)
    requires Printable(v)
    ensures Print(v) != "" && !IsSpace(Print(v)[0])
    ensures v.Number? ==> IsNumberChar(Print(v)[0])
  {
  }

  lemma NoSpaceHere(t: string, i: nat, s: string)
    requires At(t, i, s) && s != "" && !IsSpace(s[0])
    ensures SkipSpace(t, i) == i
  {
    assert t[i] == t[i..i + |s|][0] == s[0];
  }

  lemma {:induction false} RunIsRead(t: string, i: nat, j: nat)
    requires i <= j <= |t| && forall k :: i <= k < j ==> IsNumberChar(t[k])
    requires j < |t| ==> !IsNumberChar(t[j])
    ensures NumberEnd(t, i) == j
    decreases j - i
  {
    if i < j {
      RunIsRead(t, i + 1, j);
    }
  }

  /** What may follow a value: nothing that a number would swallow. */
  predicate Stops(t: string, j: nat) {
    j < |t| ==> !IsNumberChar(t[j])
  }

  lemma TokenIsRead(token: string, t: string, i: nat)
    requires IsToken(token) && At(t, i, token) && Stops(t, i + |token|)
    ensures ParseValue(t, i) == Ok(Number(token), i + |token|)
  {
    var j := i + |token|;
    assert t[i..j] == token;
    forall k | i <= k < j ensures IsNumberChar(t[k]) {
      assert t[k] == token[k - i];
    }
    RunIsRead(t, i, j);
    assert IsNumberChar(t[i]);
  }

  lemma {:induction false} ValueIsRead(v: Json, t: string, i: nat)
    requires Printable(v) && i <= |t| && At(t, i, Print(v)) && Stops(t, i + |Print(v)|)
    ensures ParseValue(t, i) == Ok(v, i + |Print(v)|)
    decreases v, 0
  {
    hide Members, Items, StringTail, PrintItems, PrintMembers, SkipSpace;
    match v
    case Null => FirstIs(Print(v), t, i);
    case Bool(b) => FirstIs(Print(v), t, i);
    case Number(token) => TokenIsRead(token, t, i);
    case Str(s) =>
      FirstIs(Print(v), t, i);
      QuotedIsRead(s, t, i);
    case Arr(items) =>
      ClosingIsRead("[", PrintItems(items) + "]", t, i);
      ArrayIsRead(items, t, i);
    case Obj(members) =>
      ClosingIsRead("{", PrintMembers(members) + "}", t, i);
      ObjectIsRead(members, t, i);
  }

  lemma FirstIs(s: string, t: string, i: nat)
    requires s != "" && At(t, i, s)
    ensures t[i] == s[0]
  {
    assert t[i] == t[i..i + |s|][0];
  }

  lemma {:induction false} ArrayIsRead(items: seq<Json>, t: string, i: nat)
    requires forall k :: 0 <= k < |items| ==> Printable(items[k])
    requires i < |t| && t[i] == '[' && At(t, i + 1, PrintItems(items) + "]")
    ensures ParseValue(t, i) == Ok(Arr(items), i + 1 + |PrintItems(items)| + 1)
    decreases items, 1
  {
    if items == [] {
      NoSpaceHere(t, i + 1, "]");
      FirstIs("]", t, i + 1);
    } else {
      ItemsOpen(items, t, i + 1);
      ItemsAreRead(items, [], t, i + 1);
      assert [] + items == items;
    }
  }

  lemma {:induction false} ObjectIsRead(members: seq<Member>, t: string, i: nat)
    requires forall k :: 0 <= k < |members| ==> Printable(members[k].value)
    requires i < |t| && t[i] == '{' && At(t, i + 1, PrintMembers(members) + "}")
    ensures ParseValue(t, i) == Ok(Obj(members), i + 1 + |PrintMembers(members)| + 1)
    decreases members, 1
  {
    if members == [] {
      NoSpaceHere(t, i + 1, "}");
      FirstIs("}", t, i + 1);
    } else {
      MembersOpen(members, t, i + 1);
      MembersAreRead(members, [], t, i + 1);
      assert [] + members == members;
    }
  }

  lemma ClosingIsRead(open: string, rest: string, t: string, i: nat)
    requires |open| == 1 && At(t, i, open + rest)
    ensures At(t, i + 1, rest) && t[i] == open[0]
  {
    AtSplit(t, i, open, rest);
    assert t[i] == t[i..i + 1][0];
  }

  lemma ItemsOpen(items: seq<Json>, t: string, i: nat)
    requires items != [] && Printable(items[0]) && At(t, i, PrintItems(items) + "]")
    ensures SkipSpace(t, i) == i && i < |t| && t[i] != ']'
  {
    var s := PrintItems(items) + "]";
    PrintOpens(items[0]);
    assert s[0] == Print(items[0])[0];
    NoSpaceHere(t, i, s);
    assert t[i] == t[i..i + |s|][0] == s[0];
  }

  lemma MembersOpen(members: seq<Member>, t: string, i: nat)
    requires members != [] && At(t, i, PrintMembers(members) + "}")
    ensures SkipSpace(t, i) == i && i < |t| && t[i] == '"'
  {
    var s := PrintMembers(members) + "}";
    assert s[0] == PrintMember(members[0])[0] == '"';
    NoSpaceHere(t, i, s);
    assert t[i] == t[i..i + |s|][0] == s[0];
  }

  /** One item and the character behind it. */
  lemma {:induction false} ItemIsRead(v: Json, t: string, i: nat, j: nat, c: char)
    requires Printable(v) && i <= |t| && At(t, i, Print(v) + [c]) && (c == ',' || c == ']')
    requires j == i + |Print(v)|
    ensures ItemTurn(t, i) == if c == ',' then More(v, j + 1) else Last(v, j + 1)
    decreases v, 2
  {
    hide ParseSpaced, Print, Printable, SkipSpace;
    SpacedIsRead(v, t, i, c);
    NoSpaceHere(t, j, [c]);
  }

  lemma {:induction false} SpacedIsRead(v: Json, t: string, i: nat, c: char)
    requires Printable(v) && i <= |t| && At(t, i, Print(v) + [c]) && !IsNumberChar(c)
    ensures ParseSpaced(t, i) == Ok(v, i + |Print(v)|)
    ensures At(t, i + |Print(v)|, [c]) && t[i + |Print(v)|] == c
    decreases v, 1
  {
    var j := i + |Print(v)|;
    AtSplit(t, i, Print(v), [c]);
    assert t[j] == t[j..j + 1][0] == c;
    PrintOpens(v);
    NoSpaceHere(t, i, Print(v));
    ValueIsRead(v, t, i);
  }

  lemma {:induction false} ItemsAreRead(items: seq<Json>, acc: seq<Json>, t: string, i: nat)
    requires items != [] && (forall k :: 0 <= k < |items| ==> Printable(items[k]))
    requires i <= |t| && At(t, i, PrintItems(items) + "]")
    ensures Items(t, i, acc) == Ok(Arr(acc + items), i + |PrintItems(items)| + 1)
    decreases items, 0
  {
    hide Print, ItemTurn, Printable;
    var v, j := items[0], i + |Print(items[0])|;
    if |items| == 1 {
      ItemIsRead(v, t, i, j, ']');
      assert acc + [v] == acc + items;
    } else {
      var rest := items[1..];
      ItemsSplit(items, t, i, j);
      ItemIsRead(v, t, i, j, ',');
      ItemsAreRead(rest, acc + [v], t, j + 1);
      MoveFirst(acc, items);
    }
  }

  lemma ItemsSplit(items: seq<Json>, t: string, i: nat, j: nat)
    requires |items| > 1 && At(t, i, PrintItems(items) + "]") && j == i + |Print(items[0])|
    ensures At(t, i, Print(items[0]) + [',']) && At(t, j + 1, PrintItems(items[1..]) + "]")
    ensures i + |PrintItems(items)| == j + 1 + |PrintItems(items[1..])|
  {
    var p, rest := Print(items[0]), PrintItems(items[1..]);
    AtSplitThree(t, i, p + [','], rest, "]");
  }

  lemma KeyIsRead(key: string, t: string, i: nat, rest: string)
    requires i <= |t| && At(t, i, Quoted(key) + (":" + rest))
    ensures var j := i + |Quoted(key)|;
      ParseKey(t, i) == Ok(key, j + 1) && At(t, j + 1, rest)
  {
    hide SkipSpace, ParseString;
    var j := i + |Quoted(key)|;
    AtSplit(t, i, Quoted(key), ":" + rest);
    AtSplit(t, j, ":", rest);
    NoSpaceHere(t, i, Quoted(key));
    QuotedIsRead(key, t, i);
    NoSpaceHere(t, j, ":");
    FirstIs(":", t, j);
  }

  lemma {:induction false} MemberIsRead(m: Member, t: string, i: nat, k: nat, j: nat, c: char)
    requires Printable(m.value) && i <= |t| && At(t, i, Quoted(m.key) + (":" + (Print(m.value) + [c])))
    requires k == i + |Quoted(m.key)| + 1 && j == k + |Print(m.value)| && !IsNumberChar(c)
    ensures ParseMember(t, i) == Ok(m, j)
    ensures At(t, j, [c]) && t[j] == c
    decreases m, 0
  {
    hide Quoted, Print, Printable, ParseKey, ParseSpaced, IsNumberChar, At;
    KeyIsRead(m.key, t, i, Print(m.value) + [c]);
    SpacedIsRead(m.value, t, k, c);
    assert ParseKey(t, i) == Ok(m.key, k) && ParseSpaced(t, k) == Ok(m.value, j);
  }

  lemma {:induction false} MemberTurnIsRead(m: Member, t: string, i: nat, j: nat, c: char)
    requires Printable(m.value) && i <= |t| && At(t, i, PrintMember(m) + [c]) && (c == ',' || c == '}')
    requires j == i + |PrintMember(m)|
    ensures MemberTurn(t, i) == if c == ',' then More(m, j + 1) else Last(m, j + 1)
    decreases m, 1
  {
    var k := i + |Quoted(m.key)| + 1;
    MemberSplit(m, t, i, k, j, c);
    MemberIsRead(m, t, i, k, j, c);
    NoSpaceHere(t, j, [c]);
  }

  lemma MemberSplit(m: Member, t: string, i: nat, k: nat, j: nat, c: char)
    requires At(t, i, PrintMember(m) + [c]) && j == i + |PrintMember(m)| && k == i + |Quoted(m.key)| + 1
    ensures At(t, i, Quoted(m.key) + (":" + (Print(m.value) + [c]))) && j == k + |Print(m.value)|
  {
    assert PrintMember(m) + [c] == Quoted(m.key) + (":" + (Print(m.value) + [c]));
  }

  lemma {:induction false} MembersAreRead(members: seq<Member>, acc: seq<Member>, t: string, i: nat)
    requires members != [] && (forall k :: 0 <= k < |members| ==> Printable(members[k].value))
    requires i <= |t| && At(t, i, PrintMembers(members) + "}")
    ensures Members(t, i, acc) == Ok(Obj(acc + members), i + |PrintMembers(members)| + 1)
    decreases members, 0
  {
    hide PrintMember, MemberTurn, Printable;
    var m := members[0];
    var j := i + |PrintMember(m)|;
    if |members| == 1 {
      MemberTurnIsRead(m, t, i, j, '}');
      assert acc + [m] == acc + members;
    } else {
      var rest := members[1..];
      MembersSplit(members, t, i, j);
      MemberTurnIsRead(m, t, i, j, ',');
      MembersAreRead(rest, acc + [m], t, j + 1);
      MoveFirst(acc, members);
    }
  }

  lemma MembersSplit(members: seq<Member>, t: string, i: nat, j: nat)
    requires |members| > 1 && At(t, i, PrintMembers(members) + "}") && j == i + |PrintMember(members[0])|
    ensures At(t, i, PrintMember(members[0]) + [',']) && At(t, j + 1, PrintMembers(members[1..]) + "}")
    ensures i + |PrintMembers(members)| == j + 1 + |PrintMembers(members[1..])|
  {
    var p, rest := PrintMember(members[0]), PrintMembers(members[1..]);
    AtSplitThree(t, i, p + [','], rest, "}");
  }

  // ----- main results -----

  /** `parse_json` gives back the tree that was printed. */
  lemma ParsingUndoesPrinting(v: Json)
    requires Printable(v)
    ensures ParseJson(Print(v)) == Ok(v, |Print(v)|)
  {
    var t := Print(v);
    AtStart(t, t);
    PrintOpens(v);
    NoSpaceHere(t, 0, t);
    ValueIsRead(v, t, 0);
  }

  /** Printing confuses no two trees. */
  lemma PrintingIsInjective(v: Json, w: Json)
    requires Printable(v) && Printable(w) && Print(v) == Print(w)
    ensures v == w
  {
    ParsingUndoesPrinting(v);
    ParsingUndoesPrinting(w);
  }
}
