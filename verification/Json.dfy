/** JSON as the load harness writes it (benchmarks/runner/json_util.hpp) and reads it back
    (loadtests/json_value.cpp): the values, the compact printer, and the parser as functions of
    the text and a position. A number keeps its token: the source hands it to strtod. */
module Json {
  import opened Text

  datatype Json =
    | Null
    | Bool(b: bool)
    | Number(token: string)
    | Str(s: string)
    | Arr(items: seq<Json>)
    | Obj(members: seq<Member>)

  datatype Member = Member(key: string, value: Json)

  // ----- printing -----

  const HEX := "0123456789abcdef"

  /** What `json_string` puts for one character. */
  function Escape(c: char): (s: string)
    ensures s != ""
  {
    if c == '"' then "\\\""
    else if c == '\\' then "\\\\"
    else if c == '\U{8}' then "\\b"
    else if c == '\U{c}' then "\\f"
    else if c == '\n' then "\\n"
    else if c == '\r' then "\\r"
    else if c == '\t' then "\\t"
    else if c < ' ' then "\\u00" + [HEX[c as int / 16], HEX[c as int % 16]]
    else [c]
  }

  function Escaped(s: string): string {
    if s == "" then "" else Escape(s[0]) + Escaped(s[1..])
  }

  function Quoted(s: string): string {
    "\"" + Escaped(s) + "\""
  }

  function Print(v: Json): string {
    match v
    case Null => "null"
    case Bool(b) => if b then "true" else "false"
    case Number(token) => token
    case Str(s) => Quoted(s)
    case Arr(items) => "[" + PrintItems(items) + "]"
    case Obj(members) => "{" + PrintMembers(members) + "}"
  }

  function PrintItems(items: seq<Json>): string {
    if items == [] then ""
    else if |items| == 1 then Print(items[0])
    else Print(items[0]) + "," + PrintItems(items[1..])
  }

  function PrintMember(m: Member): string {
    Quoted(m.key) + ":" + Print(m.value)
  }

  function PrintMembers(members: seq<Member>): string {
    if members == [] then ""
    else if |members| == 1 then PrintMember(members[0])
    else PrintMember(members[0]) + "," + PrintMembers(members[1..])
  }

  /** `json_string`: the loop over the characters builds the quoted text. */
  method JsonString(value: string) returns (out: string)
    ensures out == Quoted(value)
  {
    out := "\"";
    for i := 0 to |value|
      invariant out + Escaped(value[i..]) == "\"" + Escaped(value)
    {
      var ch := value[i];
      assert value[i..][1..] == value[i + 1..];
      out := out + Escape(ch);
    }
    assert value[|value|..] == "";
    out := out + "\"";
  }

  // ----- parsing -----

  datatype Fault =
    | UnexpectedEnd | Expected(c: char) | OpenObject | ExpectedCommaOrBrace | OpenArray | ExpectedCommaOrBracket
    | OpenString | EscapeCut | UnicodeCut | UnicodeInvalid | UnknownEscape | BadBool | BadNull | UnexpectedToken
    | TrailingContent

  datatype Parsed<T> = Ok(value: T, next: nat) | Err(fault: Fault, at: nat)

  predicate IsSpace(c: char) {
    c == ' ' || c == '\t' || c == '\n' || c == '\r'
  }

  predicate IsNumberChar(c: char) {
    IsDigit(c) || c == '.' || c == 'e' || c == 'E' || c == '+' || c == '-'
  }

  function SkipSpace(t: string, i: nat): (j: nat)
    requires i <= |t|
    ensures i <= j <= |t|
    ensures j < |t| ==> !IsSpace(t[j])
    ensures forall k :: i <= k < j ==> IsSpace(t[k])
    decreases |t| - i
  {
    if i < |t| && IsSpace(t[i]) then SkipSpace(t, i + 1) else i
  }

  /** The end of the run of number characters; the optional minus sign is one of them. */
  function NumberEnd(t: string, i: nat): (j: nat)
    requires i <= |t|
    ensures i <= j <= |t|
    ensures j < |t| ==> !IsNumberChar(t[j])
    ensures forall k :: i <= k < j ==> IsNumberChar(t[k])
    decreases |t| - i
  {
    if i < |t| && IsNumberChar(t[i]) then NumberEnd(t, i + 1) else i
  }

  function HexDigit(c: char): (d: Option<nat>)
    ensures d.Some? ==> d.value < 16
  {
    if '0' <= c <= '9' then Some(c as int - '0' as int)
    else if 'a' <= c <= 'f' then Some(c as int - 'a' as int + 10)
    else if 'A' <= c <= 'F' then Some(c as int - 'A' as int + 10)
    else None
  }

  /** `std::from_chars(…, 16)`: the longest run of hex digits, which must not be empty. */
  function HexRun(s: string, acc: nat, any: bool): Option<nat> {
    if s != "" && HexDigit(s[0]).Some? then HexRun(s[1..], 16 * acc + HexDigit(s[0]).value, true)
    else if any then Some(acc) else None
  }

  /** The bytes for one `\u` escape: no surrogate pairs, as in the source. */
  function Utf8(code: nat): string {
    if code < 0x80 then [code as char]
    else if code < 0x800 then [(0xC0 + code / 64 % 32) as char, (0x80 + code % 64) as char]
    else [(0xE0 + code / 4096 % 16) as char, (0x80 + code / 64 % 64) as char, (0x80 + code % 64) as char]
  }

  function ParseString(t: string, i: nat): (r: Parsed<string>)
    requires i <= |t|
    ensures r.Ok? ==> i + 2 <= r.next <= |t|
  {
    if i < |t| && t[i] == '"' then StringTail(t, i + 1, "") else Err(Expected('"'), i)
  }

  /** The loop of `parse_string`, at position i with out collected so far. */
  function StringTail(t: string, i: nat, out: string): (r: Parsed<string>)
    requires i <= |t|
    ensures r.Ok? ==> i + 1 <= r.next <= |t|
    decreases |t| - i
  {
    if i == |t| then Err(OpenString, i)
    else if t[i] == '"' then Ok(out, i + 1)
    else if t[i] != '\\' then StringTail(t, i + 1, out + [t[i]])
    else if i + 1 == |t| then Err(EscapeCut, i + 1)
    else
      var e := t[i + 1];
      if e == 'u' then
        if i + 6 > |t| then Err(UnicodeCut, i + 2)
        else
          var code := HexRun(t[i + 2..i + 6], 0, false);
          if code.None? then Err(UnicodeInvalid, i + 2) else StringTail(t, i + 6, out + Utf8(code.value))
      else
        var c := Unescape(e);
        if c.None? then Err(UnknownEscape, i + 2) else StringTail(t, i + 2, out + [c.value])
  }

  function Unescape(e: char): Option<char> {
    if e == '"' then Some('"')
    else if e == '\\' then Some('\\')
    else if e == '/' then Some('/')
    else if e == 'b' then Some('\U{8}')
    else if e == 'f' then Some('\U{c}')
    else if e == 'n' then Some('\n')
    else if e == 'r' then Some('\r')
    else if e == 't' then Some('\t')
    else None
  }

  function ParseValue(t: string, i: nat): (r: Parsed<Json>)
    requires i <= |t|
    ensures r.Ok? ==> i < r.next <= |t|
    decreases |t| - i, 1
  {
    if i == |t| then Err(UnexpectedEnd, i)
    else if t[i] == '{' then
      var j := SkipSpace(t, i + 1);
      if j < |t| && t[j] == '}' then Ok(Obj([]), j + 1) else Members(t, j, [])
    else if t[i] == '[' then
      var j := SkipSpace(t, i + 1);
      if j < |t| && t[j] == ']' then Ok(Arr([]), j + 1) else Items(t, j, [])
    else if t[i] == '"' then
      var r := ParseString(t, i);
      if r.Ok? then Ok(Str(r.value), r.next) else Err(r.fault, r.at)
    else if t[i] == 't' || t[i] == 'f' then
      if At(t, i, "true") then Ok(Bool(true), i + 4)
      else if At(t, i, "false") then Ok(Bool(false), i + 5)
      else Err(BadBool, i)
    else if t[i] == 'n' then
      if At(t, i, "null") then Ok(Null, i + 4) else Err(BadNull, i)
    else
      var j := NumberEnd(t, i);
      if j == i then Err(UnexpectedToken, i) else Ok(Number(t[i..j]), j)
  }

  /** White space and a value. */
  function ParseSpaced(t: string, i: nat): (r: Parsed<Json>)
    requires i <= |t|
    ensures r.Ok? ==> i < r.next <= |t|
    decreases |t| - i, 2
  {
    ParseValue(t, SkipSpace(t, i))
  }

  /** A key and its colon, with the white space in front of each. */
  function ParseKey(t: string, i: nat): (r: Parsed<string>)
    requires i <= |t|
    ensures r.Ok? ==> i < r.next <= |t|
  {
    var key := ParseString(t, SkipSpace(t, i));
    if key.Err? then key
    else
      var j := SkipSpace(t, key.next);
      if j == |t| || t[j] != ':' then Err(Expected(':'), j) else Ok(key.value, j + 1)
  }

  function ParseMember(t: string, i: nat): (r: Parsed<Member>)
    requires i <= |t|
    ensures r.Ok? ==> i < r.next <= |t|
    decreases |t| - i, 2
  {
    var key := ParseKey(t, i);
    if key.Err? then Err(key.fault, key.at)
    else
      var v := ParseSpaced(t, key.next);
      if v.Err? then Err(v.fault, v.at) else Ok(Member(key.value, v.value), v.next)
  }

  /** How one turn of a loop ends: the source returns, goes on behind a comma, or closes. */
  datatype Turn<T> = Stop(fault: Fault, at: nat) | More(value: T, next: nat) | Last(value: T, next: nat)

  function MemberTurn(t: string, i: nat): (r: Turn<Member>)
    requires i <= |t|
    ensures !r.Stop? ==> i < r.next <= |t|
    decreases |t| - i, 3
  {
    var m := ParseMember(t, i);
    if m.Err? then Stop(m.fault, m.at)
    else
      var k := SkipSpace(t, m.next);
      if k == |t| then Stop(OpenObject, k)
      else if t[k] == ',' then More(m.value, k + 1)
      else if t[k] == '}' then Last(m.value, k + 1)
      else Stop(ExpectedCommaOrBrace, k)
  }

  /** The loop of `parse_object`, at position i with the members acc collected so far. */
  function Members(t: string, i: nat, acc: seq<Member>): (r: Parsed<Json>)
    requires i <= |t|
    ensures r.Ok? ==> i < r.next <= |t| && r.value.Obj?
    decreases |t| - i, 4
  {
    match MemberTurn(t, i)
    case Stop(fault, at) => Err(fault, at)
    case More(m, k) => Members(t, k, acc + [m])
    case Last(m, k) => Ok(Obj(acc + [m]), k)
  }

  function ItemTurn(t: string, i: nat): (r: Turn<Json>)
    requires i <= |t|
    ensures !r.Stop? ==> i < r.next <= |t|
    decreases |t| - i, 3
  {
    var v := ParseSpaced(t, i);
    if v.Err? then Stop(v.fault, v.at)
    else
      var k := SkipSpace(t, v.next);
      if k == |t| then Stop(OpenArray, k)
      else if t[k] == ',' then More(v.value, k + 1)
      else if t[k] == ']' then Last(v.value, k + 1)
      else Stop(ExpectedCommaOrBracket, k)
  }

  /** The loop of `parse_array`, at position i with the items acc collected so far. */
  function Items(t: string, i: nat, acc: seq<Json>): (r: Parsed<Json>)
    requires i <= |t|
    ensures r.Ok? ==> i < r.next <= |t| && r.value.Arr?
    decreases |t| - i, 4
  {
    match ItemTurn(t, i)
    case Stop(fault, at) => Err(fault, at)
    case More(v, k) => Items(t, k, acc + [v])
    case Last(v, k) => Ok(Arr(acc + [v]), k)
  }

  /** `parse_json`: one value, with nothing but white space around it. */
  function ParseJson(t: string): (r: Parsed<Json>)
    ensures r.Ok? ==> r.next == |t|
  {
    var v := ParseSpaced(t, 0);
    if v.Err? then v
    else
      var j := SkipSpace(t, v.next);
      if j != |t| then Err(TrailingContent, j) else Ok(v.value, j)
  }
}
