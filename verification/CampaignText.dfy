/** The scan of `resume_campaign` on the bytes of the file (loadtests/campaign.cpp): a file that
    was cut at any byte reads like its complete records. */
module CampaignText {
  import opened Json
  import opened JsonTorn
  import opened JsonRoundTrip
  import opened Separated
  import opened Text
  import opened CampaignLog
  import opened CampaignScan

  // ----- lines -----

  function NotEmpty(lines: seq<string>): seq<string> {
    if lines == [] then []
    else NotEmpty(lines[..|lines| - 1]) + if lines[|lines| - 1] == "" then [] else [lines[|lines| - 1]]
  }

  /** The lines that std::getline gives, without the empty ones. */
  function RawLines(content: string): seq<string> {
    NotEmpty(Split(content, '\n'))
  }

  datatype TextScan = BadLine(number: nat) | Scanned(s: Scan)

  /** Only the last line may be no record. */
  function ScanLines(s: Scan, lines: seq<string>, i: nat): TextScan
    requires i <= |lines|
    decreases |lines| - i
  {
    if i == |lines| then Scanned(s)
    else if IsRecord(lines[i]) then ScanLines(ScanOne(s, ParseJson(lines[i]).value), lines, i + 1)
    else if i + 1 == |lines| then Scanned(s)
    else BadLine(i + 1)
  }

  function ScanText(content: string): TextScan {
    ScanLines(FRESH, RawLines(content), 0)
  }

  /** Line n, counted from 1 among the lines that are not empty, holds no object although lines
      follow, and every line before it does. */
  predicate IsBadLine(content: string, n: nat) {
    var lines := RawLines(content);
    && 1 <= n < |lines|
    && !IsRecord(lines[n - 1])
    && forall k :: 0 <= k < n - 1 ==> IsRecord(lines[k])
  }

  lemma {:induction false} LinesAreScanned(s: Scan, lines: seq<string>, i: nat)
    requires i <= |lines|
    ensures match ScanLines(s, lines, i)
      case BadLine(n) =>
        && i < n < |lines| && !IsRecord(lines[n - 1]) && forall k :: i <= k < n - 1 ==> IsRecord(lines[k])
      case Scanned(_) => forall k :: i <= k < |lines| - 1 ==> IsRecord(lines[k])
    decreases |lines| - i
  {
    hide ParseJson, ScanOne;
    if i < |lines| && IsRecord(lines[i]) {
      LinesAreScanned(ScanOne(s, ParseJson(lines[i]).value), lines, i + 1);
    }
  }

  /** The scan stops at a line exactly when it is the first bad one. */
  lemma BadLineExactly(content: string, n: nat)
    ensures ScanText(content) == BadLine(n) <==> IsBadLine(content, n)
    ensures ScanText(content).Scanned? <==> forall m :: !IsBadLine(content, m)
  {
    hide IsRecord, ScanLines;
    LinesAreScanned(FRESH, RawLines(content), 0);
    if ScanText(content).BadLine? {
      assert IsBadLine(content, ScanText(content).number);
    }
  }

  lemma BadLineOrNone(content: string)
    ensures match ScanText(content)
      case BadLine(n) => IsBadLine(content, n)
      case Scanned(_) => forall n :: !IsBadLine(content, n)
  {
    hide ScanText, IsBadLine;
    BadLineExactly(content, if ScanText(content).BadLine? then ScanText(content).number else 0);
  }

  // ----- the code -----

  method SplitLines(content: string) returns (rawLines: seq<string>)
    ensures rawLines == RawLines(content)
  {
    hide Split, NotEmpty, Separated.Find;
    rawLines := [];
    ghost var all: seq<string> := [];
    NothingEmpty();
    assert content[0..] == content;
    var start := 0;
    while start <= |content|
      invariant start <= |content| + 1
      invariant rawLines == NotEmpty(all)
      invariant start <= |content| ==> all + Split(content[start..], '\n') == Split(content, '\n')
      invariant start == |content| + 1 ==> all == Split(content, '\n')
      decreases |content| + 1 - start
    {
      var end := Separated.Find(content, '\n', start);
      FirstOfRest(content, start, end);
      var line := content[start..end];
      if line != "" {
        rawLines := rawLines + [line];
      }
      OneMoreLine(all, line);
      if end < |content| {
        Regroup(all, [line], Split(content[end + 1..], '\n'));
      }
      all := all + [line];
      start := end + 1;
    }
  }

  lemma NothingEmpty()
    ensures NotEmpty([]) == []
  {
  }

  lemma OneMoreLine(lines: seq<string>, line: string)
    ensures NotEmpty(lines + [line]) == NotEmpty(lines) + if line == "" then [] else [line]
  {
    assert (lines + [line])[..|lines|] == lines;
  }

  lemma FirstOfRest(content: string, start: nat, end: nat)
    requires start <= |content| && end == Separated.Find(content, '\n', start)
    ensures Split(content[start..], '\n')
         == if end == |content| then [content[start..end]]
            else [content[start..end]] + Split(content[end + 1..], '\n')
  {
    hide Separated.Find;
    var rest := content[start..];
    FindStops(content, '\n', start);
    FindsFirst(rest, '\n', 0, end - start);
    assert rest[..end - start] == content[start..end];
    assert Separated.Find(rest, '\n', 0) == end - start;
    if end == |content| {
      assert rest == content[start..end];
    }
    if end < |content| {
      assert rest[end - start + 1..] == content[end + 1..];
    }
  }

  /** The scan loop. */
  method ScanContent(scanner: Scanner, content: string) returns (badLine: Option<nat>)
    requires scanner.Abs() == FRESH
    modifies scanner
    ensures match badLine
      case None => ScanText(content) == Scanned(scanner.Abs())
      case Some(number) => ScanText(content) == BadLine(number)
    ensures badLine.Some? <==> exists n :: IsBadLine(content, n)
    ensures badLine.Some? ==> IsBadLine(content, badLine.value)
  {
    hide ScanOne, IsBadLine, RawLines;
    BadLineOrNone(content);
    var rawLines := SplitLines(content);
    for i := 0 to |rawLines|
      invariant ScanText(content) == ScanLines(scanner.Abs(), rawLines, i)
    {
      var parsed := ParseJson(rawLines[i]);
      if !parsed.Ok? || !parsed.value.Obj? {
        if i + 1 == |rawLines| {
          return None;
        }
        return Some(i + 1);
      }
      scanner.See(parsed.value);
    }
    badLine := None;
  }

  // ----- a printed record is one line -----

  lemma EscapeIsOneLine(c: char)
    ensures Free(Escape(c), '\n')
  {
  }

  lemma {:induction false} EscapedIsOneLine(s: string)
    ensures Free(Escaped(s), '\n')
  {
    if s != "" {
      EscapeIsOneLine(s[0]);
      EscapedIsOneLine(s[1..]);
    }
  }

  lemma QuotedIsOneLine(s: string)
    ensures Free(Quoted(s), '\n')
  {
    EscapedIsOneLine(s);
  }

  lemma {:induction false} PrintIsOneLine(v: Json)
    requires Printable(v)
    ensures Free(Print(v), '\n')
    decreases v, 1
  {
    match v {
      case Str(s) => QuotedIsOneLine(s);
      case Arr(items) => ItemsAreOneLine(v, items);
      case Obj(members) => MembersAreOneLine(v, members);
      case _ =>
    }
  }

  lemma {:induction false} ItemsAreOneLine(v: Json, items: seq<Json>)
    requires forall i :: 0 <= i < |items| ==> items[i] < v && Printable(items[i])
    ensures Free(PrintItems(items), '\n')
    decreases v, 0, |items|
  {
    if items != [] {
      PrintIsOneLine(items[0]);
      ItemsAreOneLine(v, items[1..]);
    }
  }

  lemma {:induction false} MembersAreOneLine(v: Json, members: seq<Member>)
    requires forall i :: 0 <= i < |members| ==> members[i].value < v && Printable(members[i].value)
    ensures Free(PrintMembers(members), '\n')
    decreases v, 0, |members|
  {
    if members != [] {
      QuotedIsOneLine(members[0].key);
      PrintIsOneLine(members[0].value);
      MembersAreOneLine(v, members[1..]);
    }
  }

  // ----- a file of records, cut anywhere -----

  predicate IsLogOf(records: seq<Json>) {
    forall i :: 0 <= i < |records| ==> records[i].Obj? && Printable(records[i])
  }

  function Prints(records: seq<Json>): (lines: seq<string>)
    ensures |lines| == |records| && forall i :: 0 <= i < |records| ==> lines[i] == Print(records[i])
  {
    seq(|records|, i requires 0 <= i < |records| => Print(records[i]))
  }

  lemma {:induction false} TextIsJoined(records: seq<Json>, rest: string)
    ensures TextOf(records) + rest == Join(Prints(records) + [rest], '\n')
  {
    if records == [] {
      assert Prints(records) + [rest] == [rest];
    } else {
      var last := |records| - 1;
      var line := Print(records[last]);
      TextIsJoined(records[..last], line);
      assert Prints(records) == Prints(records[..last]) + [line];
      JoinAppends(Prints(records), [rest], '\n');
      Regroup(TextOf(records[..last]), line, "\n");
      Regroup(TextOf(records[..last]) + line, "\n", rest);
    }
  }

  lemma {:induction false} NoneIsEmpty(lines: seq<string>)
    requires forall i :: 0 <= i < |lines| ==> lines[i] != ""
    ensures NotEmpty(lines) == lines
  {
    if lines != [] {
      NoneIsEmpty(lines[..|lines| - 1]);
    }
  }

  lemma PrintedRecord(v: Json)
    requires v.Obj? && Printable(v)
    ensures IsRecord(Print(v)) && ParseJson(Print(v)).value == v
    ensures Print(v) != "" && Print(v)[|Print(v)| - 1] == '}'
  {
    ParsingUndoesPrinting(v);
  }

  lemma {:induction false} NotEmptyAppends(a: seq<string>, b: seq<string>)
    ensures NotEmpty(a + b) == NotEmpty(a) + NotEmpty(b)
  {
    if b == [] {
      assert a + b == a;
    } else {
      var front, last := b[..|b| - 1], b[|b| - 1];
      assert a + b == (a + front) + [last];
      OneMoreLine(a + front, last);
      NotEmptyAppends(a, front);
      Regroup(NotEmpty(a), NotEmpty(front), if last == "" then [] else [last]);
    }
  }

  /** The lines of two texts with a newline between them are those of each… */
  lemma LinesOfBoth(a: string, b: string)
    ensures RawLines(a + "\n" + b) == RawLines(a) + RawLines(b)
  {
    hide Split, Separated.Find, Join;
    var x, y := Split(a, '\n'), Split(b, '\n');
    SplitIsFree(a, '\n');
    SplitIsFree(b, '\n');
    JoinOfSplit(a, '\n');
    JoinOfSplit(b, '\n');
    JoinAppends(x, y, '\n');
    SplitOfJoin(x + y, '\n');
    Regroup(a, "\n", b);
    NotEmptyAppends(x, y);
  }

  /** …and a text without a newline is one line, unless it is empty. */
  lemma LineOfOne(s: string)
    requires Free(s, '\n')
    ensures RawLines(s) == if s == "" then [] else [s]
  {
    hide Separated.Find;
    FindsFirst(s, '\n', 0, |s|);
    assert NotEmpty([s]) == if s == "" then [] else [s] by {
      OneMoreLine([], s);
      assert [] + [s] == [s];
    }
  }

  lemma RawLinesOf(records: seq<Json>, rest: string)
    requires IsLogOf(records) && Free(rest, '\n')
    ensures RawLines(TextOf(records) + rest) == Prints(records) + if rest == "" then [] else [rest]
  {
    var parts := Prints(records) + [rest];
    forall i | 0 <= i < |records| ensures Free(Prints(records)[i], '\n') && Prints(records)[i] != "" {
      PrintIsOneLine(records[i]);
      PrintedRecord(records[i]);
    }
    TextIsJoined(records, rest);
    SplitOfJoin(parts, '\n');
    OneMoreLine(Prints(records), rest);
    NoneIsEmpty(Prints(records));
  }

  /** The scan of the first m lines, which are printed records. */
  lemma {:induction false} RecordsAreScanned(records: seq<Json>, lines: seq<string>, i: nat)
    requires IsLogOf(records) && i <= |records| <= |lines| && lines[..|records|] == Prints(records)
    ensures ScanLines(ScanAll(FRESH, records[..i]), lines, i) == ScanLines(ScanAll(FRESH, records), lines, |records|)
    decreases |records| - i
  {
    hide ScanOne, Print, ParseJson, IsRecord;
    if i < |records| {
      assert lines[i] == lines[..|records|][i];
      PrintedRecord(records[i]);
      assert records[..i + 1] == records[..i] + [records[i]];
      ScanOneMore(FRESH, records[..i], records[i]);
      RecordsAreScanned(records, lines, i + 1);
    } else {
      assert records[..i] == records;
    }
  }

  /** Complete records, and then the beginning of one more: it counts only when it is all there. */
  lemma TornRecordIsIgnored(records: seq<Json>, next: Json, j: nat)
    requires IsLogOf(records) && next.Obj? && Printable(next) && j <= |Print(next)|
    ensures ScanText(TextOf(records) + Print(next)[..j])
         == Scanned(ScanAll(FRESH, if j == |Print(next)| then records + [next] else records))
  {
    hide ScanOne, Print, ParseJson, IsRecord, ScanAll, RawLines, Free;
    var torn, n := Print(next)[..j], |records|;
    var lines := Prints(records) + if torn == "" then [] else [torn];
    PrefixIsOneLine(next, j);
    RawLinesOf(records, torn);
    assert lines[..n] == Prints(records);
    RecordsAreScanned(records, lines, 0);
    ScanOfNothing(records);
    PrintedRecord(next);
    LastLine(ScanAll(FRESH, records), lines, n);
    assert |torn| == j && (j > 0 ==> lines[n] == torn);
    if j == |Print(next)| {
      ScanOneMore(FRESH, records, next);
      assert torn == Print(next);
    } else if j > 0 {
      CutRecord(Print(next), j);
    }
  }

  lemma LastLine(s: Scan, lines: seq<string>, n: nat)
    requires n <= |lines| <= n + 1
    ensures ScanLines(s, lines, n)
         == Scanned(if n < |lines| && IsRecord(lines[n]) then ScanOne(s, ParseJson(lines[n]).value) else s)
  {
    hide ScanOne, ParseJson, IsRecord;
  }

  lemma ScanOfNothing(records: seq<Json>)
    ensures ScanAll(FRESH, records[..0]) == FRESH
  {
  }

  lemma CutRecord(t: string, j: nat)
    requires IsRecord(t) && t[|t| - 1] == '}' && j < |t|
    ensures !IsRecord(t[..j])
  {
    hide ParseJson;
    NoProperPrefixIsAccepted(t, j);
  }

  lemma PrefixIsOneLine(v: Json, j: nat)
    requires Printable(v) && j <= |Print(v)|
    ensures Free(Print(v)[..j], '\n')
  {
    PrintIsOneLine(v);
  }

  /** The records of which all bytes but the newline lie below b. */
  function Whole(records: seq<Json>, b: nat): (k: nat)
    ensures k <= |records|
  {
    if records == [] then 0
    else
      var last := |records| - 1;
      if |TextOf(records[..last])| + |Print(records[last])| <= b then |records|
      else Whole(records[..last], b)
  }

  /** A file cut at any byte is scanned as its whole records, and never found corrupt. */
  lemma {:induction false} AnyCutIsScanned(records: seq<Json>, b: nat)
    requires IsLogOf(records) && b <= |TextOf(records)|
    ensures ScanText(TextOf(records)[..b]) == Scanned(ScanAll(FRESH, records[..Whole(records, b)]))
  {
    hide ScanText, ScanAll, Print;
    if records == [] {
      assert TextOf(records) == "" && records[..0] == records;
      EmptyFile();
    } else {
      var last := |records| - 1;
      var before := TextOf(records[..last]);
      assert TextOf(records) == before + (Print(records[last]) + "\n");
      if b < |before| {
        assert TextOf(records)[..b] == before[..b];
        AnyCutIsScanned(records[..last], b);
        assert records[..last][..Whole(records[..last], b)] == records[..Whole(records[..last], b)];
      } else if b == |TextOf(records)| {
        assert TextOf(records)[..b] == TextOf(records) && records[..|records|] == records;
        WholeFile(records);
      } else {
        CutInLastLine(records[..last], records[last], records, b);
      }
    }
  }

  lemma CutInLastLine(before: seq<Json>, last: Json, records: seq<Json>, b: nat)
    requires records == before + [last] && IsLogOf(records)
    requires |TextOf(before)| <= b <= |TextOf(before)| + |Print(last)|
    requires TextOf(records) == TextOf(before) + (Print(last) + "\n")
    ensures ScanText(TextOf(records)[..b]) == Scanned(ScanAll(FRESH, records[..Whole(records, b)]))
  {
    hide ScanText, ScanAll, Print, TextOf;
    var j := b - |TextOf(before)|;
    assert records[..|before|] == before && records[|before|] == last;
    assert TextOf(records)[..b] == TextOf(before) + Print(last)[..j];
    TornRecordIsIgnored(before, last, j);
    if j == |Print(last)| {
      assert records[..|records|] == records;
    } else {
      WholeWithin(before, b);
    }
  }

  lemma EmptyFile()
    ensures ScanText("") == Scanned(ScanAll(FRESH, []))
  {
    RawLinesOf([], "");
    assert TextOf([]) + "" == "";
  }

  lemma WholeFile(records: seq<Json>)
    requires IsLogOf(records)
    ensures ScanText(TextOf(records)) == Scanned(ScanAll(FRESH, records))
  {
    hide ScanOne, Print, ParseJson, IsRecord, RawLines;
    RawLinesOf(records, "");
    assert TextOf(records) + "" == TextOf(records) && Prints(records) + [] == Prints(records);
    assert Prints(records)[..|records|] == Prints(records);
    RecordsAreScanned(records, Prints(records), 0);
    ScanOfNothing(records);
  }

  lemma WholeWithin(records: seq<Json>, b: nat)
    requires |TextOf(records)| <= b
    ensures Whole(records, b) == |records|
  {
    hide Print;
  }
}
