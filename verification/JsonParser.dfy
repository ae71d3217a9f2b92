/** The class Parser of loadtests/json_value.cpp: a position that its methods advance, and the
    error they leave behind. Each method is proved against the function of the module Json. */
module JsonParser {
  import opened Text
  import opened Json
  import opened JsonGrammar

  /** What `error_` says: `line:column: ` and the message. */
  datatype Failure = Failure(line: nat, column: nat, fault: Fault)

  /** Line and column of position i, both counted from 1. */
  function Place(t: string, i: nat): (nat, nat)
    requires i <= |t|
  {
    if i == 0 then (1, 1)
    else
      var (line, column) := Place(t, i - 1);
      if t[i - 1] == '\n' then (line + 1, 1) else (line, column + 1)
  }

  /** The first line: its positions are counted from column 1… */
  lemma {:induction false} PlaceOnFirstLine(t: string, i: nat)
    requires i <= |t| && forall k :: 0 <= k < i ==> t[k] != '\n'
    ensures Place(t, i) == (1, i + 1)
  {
    if i > 0 {
      PlaceOnFirstLine(t, i - 1);
    }
  }

  /** …and behind a newline at p the count starts anew, one line further. */
  lemma {:induction false} PlaceBehindNewline(t: string, p: nat, i: nat)
    requires p < i <= |t| && t[p] == '\n' && forall k :: p < k < i ==> t[k] != '\n'
    ensures Place(t, i) == (Place(t, p).0 + 1, i - p)
    decreases i
  {
    if i > p + 1 {
      PlaceBehindNewline(t, p, i - 1);
    }
  }

  function FailureAt(t: string, fault: Fault, at: nat): Failure
    requires at <= |t|
  {
    Failure(Place(t, at).0, Place(t, at).1, fault)
  }

  /** How the loops go on after one turn. */
  function AfterMember(t: string, turn: Turn<Member>, acc: seq<Member>): Parsed<Json>
    requires !turn.Stop? ==> turn.next <= |t|
  {
    match turn
    case Stop(fault, at) => Err(fault, at)
    case More(m, k) => Members(t, k, acc + [m])
    case Last(m, k) => Ok(Obj(acc + [m]), k)
  }

  function AfterItem(t: string, turn: Turn<Json>, acc: seq<Json>): Parsed<Json>
    requires !turn.Stop? ==> turn.next <= |t|
  {
    match turn
    case Stop(fault, at) => Err(fault, at)
    case More(v, k) => Items(t, k, acc + [v])
    case Last(v, k) => Ok(Arr(acc + [v]), k)
  }

  lemma ArraySpec(t: string, i: nat)
    requires i < |t| && t[i] == '['
    ensures var j := SkipSpace(t, i + 1);
      ParseValue(t, i) == if j < |t| && t[j] == ']' then Ok(Arr([]), j + 1) else Items(t, j, [])
  {
  }

  lemma ItemTurnSpec(t: string, i: nat)
    requires i <= |t|
    ensures match ParseSpaced(t, i)
            case Err(fault, at) => ItemTurn(t, i) == Stop(fault, at)
            case Ok(v, next) =>
              var k := SkipSpace(t, next);
              ItemTurn(t, i) == if k == |t| then Stop(OpenArray, k)
                                else if t[k] == ',' then More(v, k + 1)
                                else if t[k] == ']' then Last(v, k + 1)
                                else Stop(ExpectedCommaOrBracket, k)
  {
  }

  class Parser {
    const text: string
    var pos: nat
    var error: Option<Failure>

    constructor (text: string)
      ensures this.text == text && pos == 0 && error == None
    {
      this.text := text;
      pos := 0;
      error := None;
    }

    /** The method did what the function says: the value and the position behind it, or nothing
        and the error at its place. */
    ghost predicate Did<T>(r: Option<T>, spec: Parsed<T>)
      reads this
    {
      && pos <= |text|
      && match spec
         case Ok(v, next) => r == Some(v) && pos == next
         case Err(fault, at) => r == None && at <= |text| && error == Some(FailureAt(text, fault, at))
    }

    method Fail(fault: Fault)
      requires pos <= |text|
      modifies this`error
      ensures error == Some(FailureAt(text, fault, pos))
    {
      var line, column := 1, 1;
      for i := 0 to pos
        invariant (line, column) == Place(text, i)
      {
        if text[i] == '\n' {
          line := line + 1;
          column := 1;
        } else {
          column := column + 1;
        }
      }
      error := Some(Failure(line, column, fault));
    }

    method SkipWs()
      requires pos <= |text|
      modifies this`pos
      ensures pos == SkipSpace(text, old(pos))
      ensures Blank(text[old(pos)..pos]) && (pos < |text| ==> text[pos] !in BLANKS)
    {
      while pos < |text| && IsSpace(text[pos])
        invariant pos <= |text| && SkipSpace(text, pos) == SkipSpace(text, old(pos))
      {
        pos := pos + 1;
      }
      SkippedExactly(text, old(pos), pos);
    }

    method Expect(c: char) returns (ok: bool)
      requires pos <= |text|
      modifies this
      ensures ok == (old(pos) < |text| && text[old(pos)] == c)
      ensures pos == if ok then old(pos) + 1 else old(pos)
      ensures !ok ==> error == Some(FailureAt(text, Expected(c), pos))
    {
      if pos == |text| || text[pos] != c {
        Fail(Expected(c));
        return false;
      }
      pos := pos + 1;
      return true;
    }

    method ReadString() returns (r: Option<string>)
      requires pos <= |text|
      modifies this
      ensures Did(r, ParseString(text, old(pos)))
      ensures r.Some? ==> pos > old(pos)
    {
      hide HexRun, Utf8, Unescape, Place;
      ghost var spec := ParseString(text, pos);
      var found := Expect('"');
      if !found {
        return None;
      }
      var out := "";
      while true
        invariant old(pos) < pos <= |text| && StringTail(text, pos, out) == spec
        decreases |text| - pos
      {
        if pos == |text| {
          Fail(OpenString);
          return None;
        }
        var c := text[pos];
        pos := pos + 1;
        if c == '"' {
          return Some(out);
        }
        if c == '\\' {
          if pos == |text| {
            Fail(EscapeCut);
            return None;
          }
          var esc := text[pos];
          pos := pos + 1;
          if esc == 'u' {
            if pos + 4 > |text| {
              Fail(UnicodeCut);
              return None;
            }
            var code := HexRun(text[pos..pos + 4], 0, false);
            if code.None? {
              Fail(UnicodeInvalid);
              return None;
            }
            pos := pos + 4;
            out := out + Utf8(code.value);
          } else {
            var ch := Unescape(esc);
            if ch.None? {
              Fail(UnknownEscape);
              return None;
            }
            out := out + [ch.value];
          }
          continue;
        }
        out := out + [c];
      }
    }

    method ReadBool() returns (r: Option<Json>)
      requires pos < |text| && (text[pos] == 't' || text[pos] == 'f')
      modifies this
      ensures Did(r, ParseValue(text, old(pos)))
    {
      if At(text, pos, "true") {
        pos := pos + 4;
        return Some(Bool(true));
      }
      if At(text, pos, "false") {
        pos := pos + 5;
        return Some(Bool(false));
      }
      Fail(BadBool);
      return None;
    }

    method ReadNull() returns (r: Option<Json>)
      requires pos < |text| && text[pos] == 'n'
      modifies this
      ensures Did(r, ParseValue(text, old(pos)))
    {
      if At(text, pos, "null") {
        pos := pos + 4;
        return Some(Null);
      }
      Fail(BadNull);
      return None;
    }

    method ReadNumber() returns (r: Option<Json>)
      requires pos < |text| && text[pos] !in "{[\"tfn"
      modifies this
      ensures Did(r, ParseValue(text, old(pos)))
    {
      var start := pos;
      if text[pos] == '-' {
        pos := pos + 1;
      }
      while pos < |text| && IsNumberChar(text[pos])
        invariant start <= pos <= |text| && NumberEnd(text, pos) == NumberEnd(text, start)
      {
        pos := pos + 1;
      }
      if pos == start {
        Fail(UnexpectedToken);
        return None;
      }
      return Some(Number(text[start..pos]));
    }

    method ReadValue() returns (r: Option<Json>)
      requires pos <= |text|
      modifies this
      ensures Did(r, ParseValue(text, old(pos)))
      ensures r.Some? ==> pos > old(pos)
      decreases |text| - pos, 1
    {
      if pos == |text| {
        Fail(UnexpectedEnd);
        return None;
      }
      var c := text[pos];
      if c == '{' {
        r := ReadObject();
      } else if c == '[' {
        r := ReadArray();
      } else if c == '"' {
        var s := ReadString();
        r := if s.Some? then Some(Str(s.value)) else None;
      } else if c == 't' || c == 'f' {
        r := ReadBool();
      } else if c == 'n' {
        r := ReadNull();
      } else {
        r := ReadNumber();
      }
    }

    /** The first half of a turn of `parse_object`: key, colon and value. */
    method ReadMember() returns (r: Option<Member>)
      requires pos <= |text|
      modifies this
      ensures Did(r, ParseMember(text, old(pos)))
      ensures r.Some? ==> pos > old(pos)
      decreases |text| - pos, 2
    {
      SkipWs();
      var key := ReadString();
      if key.None? {
        return None;
      }
      SkipWs();
      var colon := Expect(':');
      if !colon {
        return None;
      }
      assert ParseKey(text, old(pos)) == Ok(key.value, pos);
      SkipWs();
      var value := ReadValue();
      if value.None? {
        return None;
      }
      return Some(Member(key.value, value.value));
    }

    method ReadObject() returns (r: Option<Json>)
      requires pos < |text| && text[pos] == '{'
      modifies this
      ensures Did(r, ParseValue(text, old(pos)))
      decreases |text| - pos, 0
    {
      hide ParseMember, SkipSpace;
      ghost var spec := ParseValue(text, pos);
      var found := Expect('{');
      var obj := [];
      SkipWs();
      if pos < |text| && text[pos] == '}' {
        pos := pos + 1;
        return Some(Obj(obj));
      }
      while true
        invariant old(pos) < pos <= |text| && Members(text, pos, obj) == spec
        decreases |text| - pos
      {
        ghost var turn := MemberTurn(text, pos);
        assert spec == AfterMember(text, turn, obj);
        var member := ReadMember();
        if member.None? {
          return None;
        }
        SkipWs();
        if pos == |text| {
          assert turn == Stop(OpenObject, pos);
          Fail(OpenObject);
          return None;
        }
        if text[pos] == ',' {
          pos := pos + 1;
          assert turn == More(member.value, pos);
          obj := obj + [member.value];
          continue;
        }
        if text[pos] == '}' {
          pos := pos + 1;
          assert turn == Last(member.value, pos);
          obj := obj + [member.value];
          break;
        }
        assert turn == Stop(ExpectedCommaOrBrace, pos);
        Fail(ExpectedCommaOrBrace);
        return None;
      }
      return Some(Obj(obj));
    }

    method ReadArray() returns (r: Option<Json>)
      requires pos < |text| && text[pos] == '['
      modifies this
      ensures Did(r, ParseValue(text, old(pos)))
      decreases |text| - pos, 0
    {
      hide ParseValue, ItemTurn, SkipSpace, FailureAt, Blank, BLANKS;
      ghost var spec := ParseValue(text, pos);
      ArraySpec(text, pos);
      var found := Expect('[');
      var arr := [];
      SkipWs();
      if pos < |text| && text[pos] == ']' {
        pos := pos + 1;
        return Some(Arr(arr));
      }
      while true
        invariant old(pos) < pos <= |text| && Items(text, pos, arr) == spec
        decreases |text| - pos
      {
        ghost var turn, item := ItemTurn(text, pos), ParseSpaced(text, pos);
        ItemTurnSpec(text, pos);
        assert spec == AfterItem(text, turn, arr);
        SkipWs();
        var value := ReadValue();
        assert Did(value, item);
        if value.None? {
          return None;
        }
        SkipWs();
        if pos == |text| {
          assert turn == Stop(OpenArray, pos);
          Fail(OpenArray);
          return None;
        }
        if text[pos] == ',' {
          pos := pos + 1;
          assert turn == More(value.value, pos);
          arr := arr + [value.value];
          continue;
        }
        if text[pos] == ']' {
          pos := pos + 1;
          assert turn == Last(value.value, pos);
          arr := arr + [value.value];
          break;
        }
        assert turn == Stop(ExpectedCommaOrBracket, pos);
        Fail(ExpectedCommaOrBracket);
        return None;
      }
      return Some(Arr(arr));
    }

    /** `parse_json`, on a fresh parser. */
    method Parse() returns (r: Option<Json>)
      requires pos == 0
      modifies this
      ensures Did(r, ParseJson(text))
    {
      SkipWs();
      var value := ReadValue();
      if value.None? {
        return None;
      }
      SkipWs();
      if pos != |text| {
        Fail(TrailingContent);
        return None;
      }
      return value;
    }
  }
}
