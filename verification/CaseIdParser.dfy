/** `parse_case_id` of loadtests/matrix.cpp: a case id from the command line, taken apart. */
module CaseIdParser {
  import opened CaseId
  import opened Separated

  datatype Problem = BadShape | UnknownWorkload | UnknownTarget | UnknownScale
  datatype Parsed = Known(c: Case) | Unknown(problem: Problem)

  function DefaultCase(workload: string, target: string, scale: string, objects: nat, variant: string): Case {
    Case(workload, target, scale, objects, "", "normal", 1000, 1, 0, "sync_real", "warm", "full", 10, 64, 0, variant)
  }

  function FromParts(parts: seq<string>): Parsed {
    if |parts| < 4 || parts[0] != "load" then Unknown(BadShape)
    else if parts[1] !in KNOWN_WORKLOADS then Unknown(UnknownWorkload)
    else if parts[2] !in KNOWN_TARGETS then Unknown(UnknownTarget)
    else
      match ObjectsForScale(parts[3])
      case None => Unknown(UnknownScale)
      case Some(objects) => Known(DefaultCase(parts[1], parts[2], parts[3], objects, Join(parts[4..], '.')))
  }

  function Parse(text: string): Parsed {
    FromParts(Split(text, '.'))
  }

  // ----- the code -----

  /** `split_dot`. */
  method SplitDot(s: string) returns (parts: seq<string>)
    ensures parts == Split(s, '.')
  {
    parts := [];
    var start := 0;
    while start <= |s|
      invariant start <= |s|
      invariant parts + Split(s[start..], '.') == Split(s, '.')
      decreases |s| - start
    {
      ghost var rest := s[start..];
      var dot := Find(s, '.', start);
      FindInRest(s, start);
      if dot == |s| {
        parts := parts + [s[start..]];
        break;
      }
      assert rest[..dot - start] == s[start..dot] && rest[dot - start + 1..] == s[dot + 1..];
      assert parts + ([s[start..dot]] + Split(s[dot + 1..], '.'))
          == parts + [s[start..dot]] + Split(s[dot + 1..], '.');
      parts := parts + [s[start..dot]];
      start := dot + 1;
    }
  }

  lemma FindInRest(s: string, start: nat)
    requires start <= |s|
    ensures Find(s[start..], '.', 0) == Find(s, '.', start) - start
  {
    FindStops(s, '.', start);
    FindsFirst(s[start..], '.', 0, Find(s, '.', start) - start);
  }

  method ParseCaseId(text: string) returns (r: Parsed)
    ensures r == Parse(text)
  {
    var parts := SplitDot(text);
    if |parts| < 4 || parts[0] != "load" {
      return Unknown(BadShape);
    }
    if parts[1] !in KNOWN_WORKLOADS {
      return Unknown(UnknownWorkload);
    }
    if parts[2] !in KNOWN_TARGETS {
      return Unknown(UnknownTarget);
    }
    var objects := ObjectsForScale(parts[3]);
    if objects.None? {
      return Unknown(UnknownScale);
    }
    var variant := JoinWithDots(parts, 4);
    r := Known(DefaultCase(parts[1], parts[2], parts[3], objects.value, variant));
  }

  lemma OnePartMore(parts: seq<string>, first: nat, i: nat)
    requires first <= i < |parts|
    ensures parts[first..i + 1] == parts[first..i] + [parts[i]]
  {
  }

  /** The parts from `first` on, with a dot before each but the first. */
  method JoinWithDots(parts: seq<string>, first: nat) returns (text: string)
    requires first <= |parts|
    ensures text == Join(parts[first..], '.')
  {
    text := "";
    var i := first;
    while i < |parts|
      invariant first <= i <= |parts|
      invariant text == Join(parts[first..i], '.')
    {
      OnePartMore(parts, first, i);
      if i > first {
        JoinAppends(parts[first..i], [parts[i]], '.');
        text := text + ".";
      }
      text := text + parts[i];
      i := i + 1;
    }
    assert parts[first..|parts|] == parts[first..];
  }

  // ----- what it means -----

  /** A fifth and last part that is empty leaves no trace in the case. */
  predicate LosesItsLastDot(text: string) {
    var parts := Split(text, '.');
    |parts| == 5 && parts[4] == ""
  }

  lemma HeadAndVariant(parts: seq<string>)
    requires |parts| > 4
    ensures Join(parts, '.') == Join(parts[..4], '.') + (['.'] + Join(parts[4..], '.'))
  {
    assert parts == parts[..4] + parts[4..];
    JoinAppends(parts[..4], parts[4..], '.');
  }

  lemma {:induction false} LongJoinIsNotEmpty(parts: seq<string>)
    ensures Join(parts, '.') == "" <==> parts == [] || parts == [""]
  {
  }

  lemma PrintedParts(parts: seq<string>, text: string)
    requires |parts| >= 4 && parts[0] == "load" && Join(parts, '.') == text
    ensures IdWith(parts[1], parts[2], parts[3], Join(parts[4..], '.')) == text
        <==> !(|parts| == 5 && parts[4] == "")
  {
    var head := ["load", parts[1], parts[2], parts[3]];
    assert parts[..4] == head;
    HeadOfId(parts[1], parts[2], parts[3]);
    LongJoinIsNotEmpty(parts[4..]);
    if |parts| == 4 {
      assert parts == head;
    } else {
      HeadAndVariant(parts);
      WithSuffix(Join(head, '.'), Join(parts[4..], '.'));
      if parts[4..] == [""] {
        assert parts[4] == "";
      }
      if |parts| == 5 && parts[4] == "" {
        assert parts[4..] == [""];
      }
    }
  }

  /** A parsed id prints as it was given, exactly unless it is four parts and one dot more. */
  lemma ReprintsExactly(text: string)
    requires Parse(text).Known?
    ensures IdOf(Parse(text).c) == text <==> !LosesItsLastDot(text)
  {
    var parts := Split(text, '.');
    JoinOfSplit(text, '.');
    PrintedParts(parts, text);
    var c := Parse(text).c;
    NoPartsByDefault(c);
  }

  lemma NoPartsByDefault(c: Case)
    requires c == DefaultCase(c.workload, c.target, c.scale, c.objects, c.explicitVariant)
    ensures Suffix(c) == c.explicitVariant
  {
  }

  /** So a plain id with a dot at its end is accepted, and loses the dot. */
  lemma ATrailingDotIsLost(w: string, t: string, s: string)
    requires w in KNOWN_WORKLOADS && t in KNOWN_TARGETS && ObjectsForScale(s).Some?
    requires Free(w, '.') && Free(t, '.') && Free(s, '.')
    ensures var text := IdWith(w, t, s, "") + "."; Parse(text).Known? && IdOf(Parse(text).c) != text
  {
    var text := IdWith(w, t, s, "") + ".";
    var head, parts := ["load", w, t, s], ["load", w, t, s, ""];
    assert parts == head + [""];
    JoinAppends(head, [""], '.');
    HeadOfId(w, t, s);
    assert Join(parts, '.') == text;
    SplitOfJoin(parts, '.');
    ReprintsExactly(text);
  }

  /** Printing a known case and parsing the id keeps the three names, and the other dimensions as
      an opaque variant, which the filter then refuses. */
  lemma ParsesPrintedId(c: Case)
    requires DotFree(c) && c.workload in KNOWN_WORKLOADS && c.target in KNOWN_TARGETS
    requires ObjectsForScale(c.scale).Some?
    ensures Parse(IdOf(c))
         == Known(DefaultCase(c.workload, c.target, c.scale, ObjectsForScale(c.scale).value, Suffix(c)))
    ensures Reason(Parse(IdOf(c)).c) == Accepted <==> Suffix(c) == ""
  {
    IdIsJoined(c);
    SplitOfJoin(Pieces(c), '.');
    JoinOfSplit(Suffix(c), '.');
    var parts := Pieces(c);
    if Suffix(c) == "" {
      assert parts[4..] == [];
    } else {
      assert parts[4..] == Split(Suffix(c), '.');
    }
  }
}
