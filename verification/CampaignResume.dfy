/** What the scan makes of the log of one campaign, cut at any line end: it resolves exactly the
    plan positions whose verdict line was written, with their counters, and goes on exactly when
    the last position is the only one without a verdict and has its case_start. The proof follows
    the log: header fields, one record, one case, all cases, and then the cut. */
module CampaignResume {
  import opened Json
  import opened Text
  import opened CaseId
  import opened CampaignLog
  import opened CampaignScan

  const TWO_TO_53: nat := 0x20_0000_0000_0000

  // ----- fields of a record -----

  lemma FindNext(m: Member, rest: seq<Member>, key: string)
    ensures FindMember([m] + rest, key) == if m.key == key then Some(m.value) else FindMember(rest, key)
  {
    assert ([m] + rest)[1..] == rest;
  }

  lemma HeaderSplit(kind: string, runId: string, n: nat, fields: seq<Member>)
    ensures Header(kind, runId, n) + fields
         == [Member("schema", Str("modb.loadtest"))] + ([Member("schema_version", Number("1"))]
            + ([Member("record", Str(kind))] + ([Member("run_id", Str(runId))]
            + ([Member("sequence", Uint(n))] + fields))))
  {
  }

  lemma HeaderFields(kind: string, runId: string, n: nat, fields: seq<Member>, key: string)
    ensures FindMember(Header(kind, runId, n) + fields, key)
         == if key == "schema" then Some(Str("modb.loadtest"))
            else if key == "schema_version" then Some(Number("1"))
            else if key == "record" then Some(Str(kind))
            else if key == "run_id" then Some(Str(runId))
            else if key == "sequence" then Some(Uint(n))
            else FindMember(fields, key)
  {
    HeaderSplit(kind, runId, n, fields);
    var f4 := [Member("sequence", Uint(n))] + fields;
    var f3 := [Member("run_id", Str(runId))] + f4;
    var f2 := [Member("record", Str(kind))] + f3;
    var f1 := [Member("schema_version", Number("1"))] + f2;
    FindNext(Member("schema", Str("modb.loadtest")), f1, key);
    FindNext(Member("schema_version", Number("1")), f2, key);
    FindNext(Member("record", Str(kind)), f3, key);
    FindNext(Member("run_id", Str(runId)), f4, key);
    FindNext(Member("sequence", Uint(n)), fields, key);
  }

  lemma RoundedIsExact(n: nat)
    requires n < TWO_TO_53
    ensures Rounded(n) == n
  {
  }

  lemma UintIsRead(v: Json, key: string, n: nat)
    requires Find(v, key) == Some(Uint(n))
    ensures GetUint(v, key) == Rounded(n)
  {
    NumberOfDecimal(n);
  }

  /** A record is noted by its kind, and its number becomes the last one. */
  lemma RecordIsNoted(s: Scan, runId: string, n: nat, e: Entry)
    requires s.sequence <= n < TWO_TO_53
    ensures var v := Record(runId, n, e);
      ScanOne(s, v) == Note(s.(sequence := n), KindOf(e.kind), v) && GetString(v, "run_id") == runId
  {
    var v := Record(runId, n, e);
    HeaderFields(e.kind, runId, n, e.fields, "sequence");
    HeaderFields(e.kind, runId, n, e.fields, "record");
    HeaderFields(e.kind, runId, n, e.fields, "run_id");
    UintIsRead(v, "sequence", n);
    RoundedIsExact(n);
  }

  lemma FieldOfCase(kind: string, c: Case, runId: string, n: nat, m: Member, rest: seq<Member>)
    requires m.key != "schema" && m.key != "schema_version" && m.key != "record" && m.key != "run_id"
    requires m.key != "sequence" && m.key != "case_id"
    ensures Find(Record(runId, n, OfCase(kind, c, [m] + rest)), m.key) == Some(m.value)
  {
    var id := Member("case_id", Str(IdOf(c)));
    HeaderFields(kind, runId, n, [id] + ([m] + rest), m.key);
    FindNext(id, [m] + rest, m.key);
    FindNext(m, rest, m.key);
  }

  // ----- verdicts -----

  /** How the scan counts the verdict line of a case. */
  function ScannedVerdict(c: Case, fate: Fate): Verdict {
    match fate
    case Skipped(_, _) => SkippedBudget
    case Executed(run) =>
      if !Implemented(c) then Unimplemented
      else if !run.ok then (if IsUnimplementedText(run.error) then Unimplemented else Failed)
      else if run.status == "completed" then Completed
      else Failed
  }

  /** The workload's status and error text say the same. */
  predicate Consistent(c: Case, fate: Fate) {
    fate.Executed? && Implemented(c) ==>
      if fate.run.ok then fate.run.status == "completed"
      else fate.run.status == "unimplemented" <==> IsUnimplementedText(fate.run.error)
  }

  /** The scan counts a case as the writer did exactly when status and error text agree. */
  lemma VerdictsAgreeExactly(c: Case, fate: Fate)
    ensures ScannedVerdict(c, fate) == WrittenVerdict(c, fate) <==> Consistent(c, fate)
  {
  }

  lemma NotImplementedIsRecognised(workload: string)
    ensures IsUnimplementedText(NotImplementedText(workload))
  {
    var head := "workload '" + workload + "' ";
    assert At(NotImplementedText(workload), |head|, NOT_IMPLEMENTED);
  }

  lemma SummaryIsRead(c: Case, runId: string, n: nat, status: string, details: seq<Member>)
    ensures SummaryVerdict(Record(runId, n, CaseSummary(c, status, details)))
         == if status == "completed" then Completed else Failed
  {
    FieldOfCase("case_summary", c, runId, n, Member("status", Str(status)), details);
  }

  lemma ErrorIsRead(c: Case, runId: string, n: nat, error: string)
    ensures ErrorVerdict(Record(runId, n, CaseError(c, error)))
         == if IsUnimplementedText(error) then Unimplemented else Failed
  {
    assert [Member("error", Str(error))] == [Member("error", Str(error))] + [];
    FieldOfCase("case_error", c, runId, n, Member("error", Str(error)), []);
  }

  // ----- the state between two cases, and within one -----

  function Len(g: Campaign, p: nat): nat
    requires WellFormed(g) && p <= |g.cases|
  {
    3 + |CasesEntries(g.cases, g.fates, p)|
  }

  function Below(p: nat): set<nat> {
    if p == 0 then {} else Below(p - 1) + {p - 1}
  }

  lemma {:induction false} InBelow(p: nat, i: nat)
    ensures i in Below(p) <==> i < p
  {
    if p > 0 {
      InBelow(p - 1, i);
    }
  }

  function StartRecord(g: Campaign, p: nat): Json
    requires WellFormed(g) && p < |g.cases|
  {
    Record(g.runId, Len(g, p) + 1, CaseStart(g.cases[p]))
  }

  function StartsUpTo(g: Campaign, p: nat): map<nat, Json>
    requires WellFormed(g) && p <= |g.cases|
  {
    if p == 0 then map[]
    else if g.fates[p - 1].Skipped? then StartsUpTo(g, p - 1)
    else StartsUpTo(g, p - 1)[p - 1 := StartRecord(g, p - 1)]
  }

  function ScannedTally(g: Campaign, p: nat): Tally
    requires WellFormed(g) && p <= |g.cases|
  {
    if p == 0 then Tally(0, 0, 0, 0)
    else Count(ScannedTally(g, p - 1), ScannedVerdict(g.cases[p - 1], g.fates[p - 1]))
  }

  function Between(g: Campaign, p: nat): Scan
    requires WellFormed(g) && p <= |g.cases|
  {
    Scan(g.runId, Decimal(g.seed), Ids(g.cases), StartsUpTo(g, p), Below(p),
         p, if p == 0 then None else Some(p - 1), Len(g, p), ScannedTally(g, p))
  }

  lemma LenGrows(g: Campaign, p: nat)
    requires WellFormed(g) && p < |g.cases|
    ensures Len(g, p + 1) == Len(g, p) + |CaseEntries(g.cases[p], g.fates[p])|
  {
  }

  // ----- reading one case -----

  predicate IsAux(kind: string) {
    kind == "progress_window" || kind == "phase_start" || kind == "phase_summary" || kind == "stage_profile"
  }

  lemma {:induction false} PhasesAreAux(c: Case, phases: seq<PhaseRun>)
    ensures forall i :: 0 <= i < |Phases(c, phases)| ==> IsAux(Phases(c, phases)[i].kind)
  {
    if phases != [] {
      PhasesAreAux(c, phases[..|phases| - 1]);
    }
  }

  lemma AuxIsIgnored(s: Scan, runId: string, n: nat, e: Entry)
    requires s.sequence <= n < TWO_TO_53 && IsAux(e.kind)
    ensures ScanOne(s, Record(runId, n, e)) == s.(sequence := n)
  {
    RecordIsNoted(s, runId, n, e);
  }

  // What each kind of record does to the scan.

  lemma NoteStart(s: Scan, v: Json)
    ensures Note(s, CaseStarts, v)
         == s.(current := Some(s.nextPosition), nextPosition := s.nextPosition + 1,
               starts := s.starts[s.nextPosition := v])
  {
  }

  lemma NoteSummary(s: Scan, v: Json, p: nat)
    requires s.current == Some(p)
    ensures Note(s, Summary, v) == s.(resolved := s.resolved + {p}, tally := Count(s.tally, SummaryVerdict(v)))
  {
  }

  lemma NoteError(s: Scan, v: Json, p: nat)
    requires s.current == Some(p) && p !in s.resolved
    ensures Note(s, Error, v) == s.(resolved := s.resolved + {p}, tally := Count(s.tally, ErrorVerdict(v)))
  {
  }

  lemma NoteSkip(s: Scan, v: Json)
    requires s.nextPosition !in s.resolved
    ensures Note(s, Skip, v)
         == s.(current := Some(s.nextPosition), nextPosition := s.nextPosition + 1,
               resolved := s.resolved + {s.nextPosition}, tally := Count(s.tally, SkippedBudget))
  {
  }

  lemma ScanStart(s: Scan, runId: string, n: nat, c: Case)
    requires s.sequence <= n < TWO_TO_53
    ensures var v := Record(runId, n, CaseStart(c));
      ScanOne(s, v) == s.(sequence := n, current := Some(s.nextPosition), nextPosition := s.nextPosition + 1,
                          starts := s.starts[s.nextPosition := v])
  {
    RecordIsNoted(s, runId, n, CaseStart(c));
    NoteStart(s.(sequence := n), Record(runId, n, CaseStart(c)));
  }

  lemma VerdictKind(c: Case, fate: Fate, runId: string, n: nat, s: Scan, p: nat)
    requires fate.Executed? && s.current == Some(p) && p !in s.resolved
    ensures var e := VerdictEntry(c, fate);
      Note(s, KindOf(e.kind), Record(runId, n, e))
      == s.(resolved := s.resolved + {p}, tally := Count(s.tally, ScannedVerdict(c, fate)))
  {
    var e := VerdictEntry(c, fate);
    var v := Record(runId, n, e);
    if !Implemented(c) {
      NoteError(s, v, p);
      NotImplementedIsRecognised(c.workload);
      ErrorIsRead(c, runId, n, NotImplementedText(c.workload));
    } else if !fate.run.ok {
      NoteError(s, v, p);
      ErrorIsRead(c, runId, n, fate.run.error);
    } else {
      NoteSummary(s, v, p);
      SummaryIsRead(c, runId, n, fate.run.status, fate.run.details);
    }
  }

  lemma ScanVerdict(s: Scan, runId: string, n: nat, c: Case, fate: Fate, p: nat)
    requires s.sequence <= n < TWO_TO_53 && fate.Executed? && s.current == Some(p) && p !in s.resolved
    ensures ScanOne(s, Record(runId, n, VerdictEntry(c, fate)))
         == s.(sequence := n, resolved := s.resolved + {p}, tally := Count(s.tally, ScannedVerdict(c, fate)))
  {
    RecordIsNoted(s, runId, n, VerdictEntry(c, fate));
    VerdictKind(c, fate, runId, n, s.(sequence := n), p);
  }

  lemma ScanSkip(s: Scan, runId: string, n: nat, c: Case, fate: Fate)
    requires s.sequence <= n < TWO_TO_53 && fate.Skipped? && s.nextPosition !in s.resolved
    ensures ScanOne(s, Record(runId, n, VerdictEntry(c, fate)))
         == s.(sequence := n, current := Some(s.nextPosition), nextPosition := s.nextPosition + 1,
               resolved := s.resolved + {s.nextPosition}, tally := Count(s.tally, SkippedBudget))
  {
    RecordIsNoted(s, runId, n, VerdictEntry(c, fate));
    NoteSkip(s.(sequence := n), Record(runId, n, VerdictEntry(c, fate)));
  }

  // ----- the lines of one case -----

  /** The j-th line of a case: case_start first, the verdict last, and nothing of note between. */
  lemma LineOfCase(c: Case, fate: Fate, j: nat)
    requires fate.Executed? && j < |CaseEntries(c, fate)|
    ensures |CaseEntries(c, fate)| >= 2
    ensures j == 0 ==> CaseEntries(c, fate)[j] == CaseStart(c)
    ensures j == |CaseEntries(c, fate)| - 1 ==> CaseEntries(c, fate)[j] == VerdictEntry(c, fate)
    ensures 0 < j < |CaseEntries(c, fate)| - 1 ==> IsAux(CaseEntries(c, fate)[j].kind)
  {
    var before := BeforeVerdict(c, fate);
    assert before[0] == CaseStart(c);
    if Implemented(c) && 0 < j < |before| {
      PhasesAreAux(c, fate.run.phases);
      AuxLines(before, Windows(c, fate.run.windows), Phases(c, fate.run.phases), j);
    }
  }

  lemma AuxLines(before: seq<Entry>, windows: seq<Entry>, phases: seq<Entry>, j: nat)
    requires |before| == 1 + |windows + phases| && before[1..] == windows + phases && 0 < j < |before|
    requires forall i :: 0 <= i < |windows| ==> IsAux(windows[i].kind)
    requires forall i :: 0 <= i < |phases| ==> IsAux(phases[i].kind)
    ensures IsAux(before[j].kind)
  {
    assert before[j] == before[1..][j - 1];
  }

  function Started(s: Scan, start: Json): Scan {
    s.(current := Some(s.nextPosition), nextPosition := s.nextPosition + 1, starts := s.starts[s.nextPosition := start])
  }

  function Resolved(s: Scan, p: nat, v: Verdict): Scan {
    s.(resolved := s.resolved + {p}, tally := Count(s.tally, v))
  }

  /** What the scan holds after j of the n lines of a case. */
  function AfterLines(s: Scan, start: Json, skipped: bool, verdict: Verdict, n: nat, j: nat): Scan {
    if j == 0 then s
    else if skipped then
      Resolved(s.(sequence := s.sequence + j, current := Some(s.nextPosition), nextPosition := s.nextPosition + 1),
               s.nextPosition, SkippedBudget)
    else
      var started := Started(s, start).(sequence := s.sequence + j);
      if j < n then started else Resolved(started, s.nextPosition, verdict)
  }

  function StartOf(s: Scan, runId: string, c: Case): Json {
    Record(runId, s.sequence + 1, CaseStart(c))
  }

  /** What the scan holds after j lines of this case. */
  function AfterCaseLines(s: Scan, runId: string, c: Case, fate: Fate, j: nat): Scan {
    AfterLines(s, StartOf(s, runId, c), fate.Skipped?, ScannedVerdict(c, fate), |CaseEntries(c, fate)|, j)
  }

  // One line more, by what the line is.

  lemma FirstLine(s: Scan, runId: string, c: Case, verdict: Verdict, n: nat, e: Entry)
    requires s.sequence + 1 < TWO_TO_53 && n > 1 && e == CaseStart(c)
    ensures ScanOne(AfterLines(s, StartOf(s, runId, c), false, verdict, n, 0), Record(runId, s.sequence + 1, e))
         == AfterLines(s, StartOf(s, runId, c), false, verdict, n, 1)
  {
    hide ScanOne, ScannedVerdict;
    ScanStart(s, runId, s.sequence + 1, c);
  }

  lemma MiddleLine(s: Scan, start: Json, verdict: Verdict, n: nat, j: nat, runId: string, e: Entry)
    requires 0 < j && j + 1 < n && s.sequence + j + 1 < TWO_TO_53 && IsAux(e.kind)
    ensures ScanOne(AfterLines(s, start, false, verdict, n, j), Record(runId, s.sequence + j + 1, e))
         == AfterLines(s, start, false, verdict, n, j + 1)
  {
    hide ScanOne, Record;
    AuxIsIgnored(AfterLines(s, start, false, verdict, n, j), runId, s.sequence + j + 1, e);
  }

  lemma LastLine(s: Scan, start: Json, n: nat, runId: string, c: Case, fate: Fate, verdict: Verdict, e: Entry)
    requires n > 1 && s.sequence + n < TWO_TO_53 && fate.Executed? && s.nextPosition !in s.resolved
    requires e == VerdictEntry(c, fate) && verdict == ScannedVerdict(c, fate)
    ensures ScanOne(AfterLines(s, start, false, verdict, n, n - 1), Record(runId, s.sequence + n, e))
         == AfterLines(s, start, false, verdict, n, n)
  {
    hide ScanOne, Record, VerdictEntry, ScannedVerdict;
    ScanVerdict(AfterLines(s, start, false, verdict, n, n - 1), runId, s.sequence + n, c, fate, s.nextPosition);
  }

  lemma OnlyLine(s: Scan, runId: string, c: Case, fate: Fate, start: Json, verdict: Verdict)
    requires s.sequence + 1 < TWO_TO_53 && fate.Skipped? && s.nextPosition !in s.resolved
    ensures ScanOne(s, Record(runId, s.sequence + 1, VerdictEntry(c, fate)))
         == AfterLines(s, start, true, verdict, 1, 1)
  {
    ScanSkip(s, runId, s.sequence + 1, c, fate);
  }

  lemma NextLineExecuted(s: Scan, runId: string, c: Case, fate: Fate, start: Json, verdict: Verdict, n: nat, j: nat,
                         e: Entry)
    requires fate.Executed? && n == |CaseEntries(c, fate)| && j < n && e == CaseEntries(c, fate)[j]
    requires start == StartOf(s, runId, c) && verdict == ScannedVerdict(c, fate)
    requires s.sequence + j + 1 < TWO_TO_53 && s.nextPosition !in s.resolved
    ensures ScanOne(AfterLines(s, start, false, verdict, n, j), Record(runId, s.sequence + j + 1, e))
         == AfterLines(s, start, false, verdict, n, j + 1)
  {
    hide ScanOne, Record, ScannedVerdict, AfterLines, CaseEntries, StartOf;
    LineOfCase(c, fate, j);
    if j == 0 {
      FirstLine(s, runId, c, verdict, n, e);
    } else if j < n - 1 {
      MiddleLine(s, start, verdict, n, j, runId, e);
    } else {
      LastLine(s, start, n, runId, c, fate, verdict, e);
    }
  }

  lemma NextLine(s: Scan, runId: string, c: Case, fate: Fate, j: nat, e: Entry)
    requires j < |CaseEntries(c, fate)| && e == CaseEntries(c, fate)[j]
    requires s.sequence + j + 1 < TWO_TO_53 && s.nextPosition !in s.resolved
    ensures ScanOne(AfterCaseLines(s, runId, c, fate, j), Record(runId, s.sequence + 1 + j, e))
         == AfterCaseLines(s, runId, c, fate, j + 1)
  {
    hide ScanOne, Record, ScannedVerdict, CaseStart;
    var start, verdict := StartOf(s, runId, c), ScannedVerdict(c, fate);
    if fate.Skipped? {
      OnlyLine(s, runId, c, fate, start, verdict);
    } else {
      NextLineExecuted(s, runId, c, fate, start, verdict, |CaseEntries(c, fate)|, j, e);
    }
  }

  predicate Follows(states: seq<Scan>, records: seq<Json>) {
    |states| == |records| + 1 && forall i :: 0 <= i < |records| ==> ScanOne(states[i], records[i]) == states[i + 1]
  }

  /** The scan goes through the states that follow one another. */
  lemma {:induction false} ScanGoesThrough(states: seq<Scan>, records: seq<Json>, k: nat)
    requires Follows(states, records) && k <= |records|
    ensures ScanAll(states[0], records[..k]) == states[k]
  {
    if k > 0 {
      ScanGoesThrough(states, records, k - 1);
      assert records[..k][..k - 1] == records[..k - 1];
    }
  }

  lemma NoLineYet(s: Scan, runId: string, c: Case, fate: Fate)
    ensures AfterCaseLines(s, runId, c, fate, 0) == s
  {
  }

  lemma LinesAreScanned(s: Scan, runId: string, c: Case, fate: Fate, j: nat)
    requires j <= |CaseEntries(c, fate)|
    requires s.sequence + |CaseEntries(c, fate)| < TWO_TO_53 && s.nextPosition !in s.resolved
    ensures ScanAll(s, Numbered(runId, s.sequence + 1, CaseEntries(c, fate))[..j])
         == AfterCaseLines(s, runId, c, fate, j)
  {
    hide ScanOne, Record, CaseEntries, AfterCaseLines;
    var entries := CaseEntries(c, fate);
    var records := Numbered(runId, s.sequence + 1, entries);
    var states := seq(|entries| + 1, i requires 0 <= i <= |entries| => AfterCaseLines(s, runId, c, fate, i));
    forall i | 0 <= i < |records| ensures ScanOne(states[i], records[i]) == states[i + 1] {
      NextLine(s, runId, c, fate, i, entries[i]);
    }
    NoLineYet(s, runId, c, fate);
    ScanGoesThrough(states, records, j);
  }

  // ----- the whole log -----

  lemma {:induction false} ScanAppends(s: Scan, a: seq<Json>, b: seq<Json>)
    ensures ScanAll(s, a + b) == ScanAll(ScanAll(s, a), b)
  {
    if b == [] {
      assert a + b == a;
    } else {
      var last := |b| - 1;
      assert (a + b)[..|a + b| - 1] == a + b[..last] && (a + b)[|a + b| - 1] == b[last];
      ScanAppends(s, a, b[..last]);
    }
  }

  lemma NumberedAppends(runId: string, first: nat, a: seq<Entry>, b: seq<Entry>)
    ensures Numbered(runId, first, a + b) == Numbered(runId, first, a) + Numbered(runId, first + |a|, b)
  {
  }

  lemma {:induction false} StringsOfTexts(ids: seq<string>)
    ensures Strings(Texts(ids)) == ids
  {
    if ids != [] {
      var rest := ids[..|ids| - 1];
      assert Texts(ids)[..|ids| - 1] == Texts(rest);
      StringsOfTexts(rest);
      assert ids == rest + [ids[|ids| - 1]];
    }
  }

  lemma PlanIsRead(g: Campaign, n: nat)
    ensures PlanOf(Record(g.runId, n, CasePlan(g.cases))) == Ids(g.cases)
  {
    var count, ids := Member("case_count", Uint(|g.cases|)), Member("cases", Arr(Texts(Ids(g.cases))));
    assert CasePlan(g.cases).fields == [count] + ([ids] + []);
    HeaderFields("case_plan", g.runId, n, [count] + ([ids] + []), "cases");
    FindNext(count, [ids] + [], "cases");
    FindNext(ids, [], "cases");
    StringsOfTexts(Ids(g.cases));
  }

  lemma SeedIsRead(g: Campaign, n: nat)
    ensures GetString(Record(g.runId, n, RunStart(g.stamp, g.profile, g.seed, g.command)), "seed") == Decimal(g.seed)
  {
    var m1, m2 := Member("started_at", Str(g.stamp)), Member("profile", Str(g.profile));
    var m3, m4 := Member("seed", Str(Decimal(g.seed))), Member("command", Str(g.command));
    assert RunStart(g.stamp, g.profile, g.seed, g.command).fields == [m1] + ([m2] + ([m3] + [m4]));
    HeaderFields("run_start", g.runId, n, [m1] + ([m2] + ([m3] + [m4])), "seed");
    FindNext(m1, [m2] + ([m3] + [m4]), "seed");
    FindNext(m2, [m3] + [m4], "seed");
    FindNext(m3, [m4], "seed");
  }

  /** After run_start, after environment, after case_plan. */
  function Opened(g: Campaign, k: nat): Scan {
    if k == 0 then FRESH
    else FRESH.(runId := g.runId, seed := Decimal(g.seed), plan := if k < 3 then [] else Ids(g.cases), sequence := k)
  }

  lemma OpeningStep(g: Campaign, k: nat)
    requires k < 3
    ensures ScanOne(Opened(g, k), Record(g.runId, k + 1, Opening(g)[k])) == Opened(g, k + 1)
  {
    RecordIsNoted(Opened(g, k), g.runId, k + 1, Opening(g)[k]);
    if k == 0 {
      SeedIsRead(g, 1);
    } else if k == 2 {
      PlanIsRead(g, 3);
    }
  }

  lemma OpeningIsScanned(g: Campaign, k: nat)
    requires k <= 3
    ensures ScanAll(FRESH, Numbered(g.runId, 1, Opening(g))[..k]) == Opened(g, k)
  {
    hide ScanOne, Record;
    var records := Numbered(g.runId, 1, Opening(g));
    var states := [Opened(g, 0), Opened(g, 1), Opened(g, 2), Opened(g, 3)];
    OpeningStep(g, 0);
    OpeningStep(g, 1);
    OpeningStep(g, 2);
    ScanGoesThrough(states, records, k);
  }

  lemma OpenedIsBetween(g: Campaign)
    requires WellFormed(g)
    ensures Opened(g, 3) == Between(g, 0)
  {
    hide Ids, Decimal;
  }

  /** The lines up to and with case p - 1. */
  function UpTo(g: Campaign, p: nat): (entries: seq<Entry>)
    requires WellFormed(g) && p <= |g.cases|
    ensures |entries| == Len(g, p)
  {
    Opening(g) + CasesEntries(g.cases, g.fates, p)
  }

  lemma CaseIsDone(g: Campaign, p: nat)
    requires WellFormed(g) && p < |g.cases|
    ensures AfterCaseLines(Between(g, p), g.runId, g.cases[p], g.fates[p], |CaseEntries(g.cases[p], g.fates[p])|)
         == Between(g, p + 1)
  {
    hide Record, CaseStart, CaseEntries, Count, Ids, Decimal;
    LenGrows(g, p);
  }

  /** Cut j lines into case p. */
  lemma {:induction false} CutIsScanned(g: Campaign, p: nat, j: nat)
    requires WellFormed(g) && p < |g.cases| && j <= |CaseEntries(g.cases[p], g.fates[p])|
    requires Len(g, p + 1) < TWO_TO_53
    ensures ScanAll(FRESH, Numbered(g.runId, 1, UpTo(g, p) + CaseEntries(g.cases[p], g.fates[p])[..j]))
         == AfterCaseLines(Between(g, p), g.runId, g.cases[p], g.fates[p], j)
    decreases p, 1
  {
    hide ScanOne, Record, CaseEntries, ScanAll;
    var lines := CaseEntries(g.cases[p], g.fates[p]);
    var before := Numbered(g.runId, 1, UpTo(g, p));
    var within := Numbered(g.runId, Len(g, p) + 1, lines);
    LenGrows(g, p);
    CasesAreScanned(g, p);
    InBelow(p, p);
    LinesAreScanned(Between(g, p), g.runId, g.cases[p], g.fates[p], j);
    NumberedAppends(g.runId, 1, UpTo(g, p), lines[..j]);
    assert Numbered(g.runId, Len(g, p) + 1, lines[..j]) == within[..j];
    ScanAppends(FRESH, before, within[..j]);
  }

  lemma {:induction false} CasesAreScanned(g: Campaign, p: nat)
    requires WellFormed(g) && p <= |g.cases| && Len(g, p) < TWO_TO_53
    ensures ScanAll(FRESH, Numbered(g.runId, 1, UpTo(g, p))) == Between(g, p)
    decreases p, 0
  {
    hide ScanOne, Record, CaseEntries, Between, AfterCaseLines, Numbered;
    if p == 0 {
      var records := Numbered(g.runId, 1, UpTo(g, 0));
      assert UpTo(g, 0) == Opening(g);
      assert records[..3] == records;
      OpeningIsScanned(g, 3);
      OpenedIsBetween(g);
    } else {
      var lines := CaseEntries(g.cases[p - 1], g.fates[p - 1]);
      CutIsScanned(g, p - 1, |lines|);
      CaseIsDone(g, p - 1);
      assert UpTo(g, p) == UpTo(g, p - 1) + lines[..|lines|];
    }
  }

  // ----- main results -----

  /** How many cases have all their lines among the first k. */
  function Settled(g: Campaign, k: nat, n: nat): (p: nat)
    requires WellFormed(g) && n <= |g.cases|
    ensures p <= n
  {
    if n == 0 || Len(g, n) <= k then n else Settled(g, k, n - 1)
  }

  lemma {:induction false} LenIsMonotone(g: Campaign, p: nat, q: nat)
    requires WellFormed(g) && p <= q <= |g.cases|
    ensures Len(g, p) <= Len(g, q) && (p < q ==> Len(g, p) < Len(g, q))
  {
    hide Len, CaseEntries;
    if p < q {
      LenIsMonotone(g, p, q - 1);
      LenGrows(g, q - 1);
    }
  }

  lemma NoCasesYet(g: Campaign)
    requires WellFormed(g)
    ensures Len(g, 0) == 3
  {
  }

  lemma {:induction false} SettledIsBetween(g: Campaign, k: nat, n: nat)
    requires WellFormed(g) && n <= |g.cases| && 3 <= k
    ensures var p := Settled(g, k, n); Len(g, p) <= k && (p < n ==> k < Len(g, p + 1))
  {
    hide Len;
    NoCasesYet(g);
    if n > 0 && Len(g, n) > k {
      SettledIsBetween(g, k, n - 1);
    }
  }

  lemma {:induction false} PrefixOfCases(g: Campaign, p: nat, n: nat)
    requires WellFormed(g) && p <= n <= |g.cases|
    ensures UpTo(g, p) <= UpTo(g, n)
  {
    hide UpTo, CaseEntries, Len;
    if p < n {
      PrefixOfCases(g, p, n - 1);
      NextCase(g, n - 1);
    }
  }

  /** The state of the scan of the first k lines of the log. */
  function Expected(g: Campaign, k: nat): Scan
    requires WellFormed(g) && 3 <= k <= Len(g, |g.cases|)
  {
    var p := Settled(g, k, |g.cases|);
    LenIsMonotone(g, p, |g.cases|);
    SettledIsBetween(g, k, |g.cases|);
    if p == |g.cases| then Between(g, p)
    else AfterCaseLines(Between(g, p), g.runId, g.cases[p], g.fates[p], k - Len(g, p))
  }

  lemma CutLogIsScanned(g: Campaign, k: nat)
    requires WellFormed(g) && 3 <= k <= Len(g, |g.cases|) < TWO_TO_53
    ensures ScanAll(FRESH, Numbered(g.runId, 1, Body(g)[..k])) == Expected(g, k)
  {
    hide ScanAll, ScanOne, Between, AfterCaseLines, Record, CaseEntries, CasesEntries;
    var n := |g.cases|;
    var p := Settled(g, k, n);
    SettledIsBetween(g, k, n);
    PrefixOfCases(g, p, n);
    if p == n {
      CasesAreScanned(g, n);
      assert Body(g)[..k] == UpTo(g, n);
    } else {
      var lines, j := CaseEntries(g.cases[p], g.fates[p]), k - Len(g, p);
      LenGrows(g, p);
      PrefixOfCases(g, p + 1, n);
      LenIsMonotone(g, p + 1, n);
      NextCase(g, p);
      CutOfPrefix(Body(g), UpTo(g, p), lines, j);
      CutIsScanned(g, p, j);
    }
  }

  lemma NextCase(g: Campaign, p: nat)
    requires WellFormed(g) && p < |g.cases|
    ensures UpTo(g, p + 1) == UpTo(g, p) + CaseEntries(g.cases[p], g.fates[p])
  {
    hide CaseEntries, Opening;
  }

  lemma CutOfPrefix(whole: seq<Entry>, a: seq<Entry>, b: seq<Entry>, j: nat)
    requires a + b <= whole && j <= |b|
    ensures whole[..|a| + j] == a + b[..j]
  {
    assert whole[..|a| + |b|] == a + b;
  }

  /** The first n cases are. */
  predicate ConsistentUpTo(g: Campaign, n: nat)
    requires WellFormed(g) && n <= |g.cases|
  {
    forall p :: 0 <= p < n ==> Consistent(g.cases[p], g.fates[p])
  }

  lemma {:induction false} TalliesAgree(g: Campaign, p: nat)
    requires WellFormed(g) && p <= |g.cases| && ConsistentUpTo(g, p)
    ensures ScannedTally(g, p) == CasesTally(g.cases, g.fates, p)
  {
    hide Consistent, ScannedVerdict, WrittenVerdict, Count;
    if p > 0 {
      TalliesAgree(g, p - 1);
      VerdictsAgreeExactly(g.cases[p - 1], g.fates[p - 1]);
    }
  }

  lemma {:induction false} ScannedTallyCountsEveryCase(g: Campaign, p: nat)
    requires WellFormed(g) && p <= |g.cases|
    ensures Sum(ScannedTally(g, p)) == p
  {
    hide ScannedVerdict, Count, Sum;
    if p > 0 {
      ScannedTallyCountsEveryCase(g, p - 1);
      CountAddsOne(ScannedTally(g, p - 1), ScannedVerdict(g.cases[p - 1], g.fates[p - 1]));
    } else {
      NothingCounted();
    }
  }

  lemma NothingCounted()
    ensures Sum(Tally(0, 0, 0, 0)) == 0
  {
  }

  /** What of the expected state the resume looks at. */
  lemma ExpectedFields(g: Campaign, k: nat, p: nat)
    requires WellFormed(g) && 3 <= k <= Len(g, |g.cases|) && p == Settled(g, k, |g.cases|)
    ensures var s := Expected(g, k);
      && s.runId == g.runId && s.plan == Ids(g.cases) && s.sequence == k
      && s.resolved == Below(p) && s.tally == ScannedTally(g, p)
      && s.starts == if p < |g.cases| && Len(g, p) < k then StartsUpTo(g, p)[p := StartRecord(g, p)]
                     else StartsUpTo(g, p)
  {
    hide Len, CaseEntries, Record, CaseStart, ScannedVerdict, ScannedTally, StartsUpTo, Below, Ids, Count, Resolved;
    LenIsMonotone(g, p, |g.cases|);
    SettledIsBetween(g, k, |g.cases|);
    if p < |g.cases| {
      LenGrows(g, p);
      SkippedIsOneLine(g.cases[p], g.fates[p]);
    }
  }

  lemma SkippedIsOneLine(c: Case, fate: Fate)
    ensures fate.Skipped? ==> |CaseEntries(c, fate)| == 1
  {
  }

  /** From the log of one campaign cut at any line end, the scan resolves exactly the positions
      whose verdict line was written; its last sequence number is that of the last line. */
  lemma ScanResolvesExactly(g: Campaign, k: nat, p: nat)
    requires WellFormed(g) && 3 <= k <= Len(g, |g.cases|) < TWO_TO_53
    ensures var s := ScanAll(FRESH, Numbered(g.runId, 1, Body(g)[..k]));
      && s.runId == g.runId && s.plan == Ids(g.cases) && s.sequence == k
      && (p in s.resolved <==> p < |g.cases| && Len(g, p + 1) <= k)
  {
    hide ScanAll, Expected, Settled, Len, Below, Ids, StartsUpTo, StartRecord, ScannedTally, Numbered, Body;
    CutLogIsScanned(g, k);
    ExpectedFields(g, k, Settled(g, k, |g.cases|));
    InBelow(Settled(g, k, |g.cases|), p);
    SettledExactly(g, k, p);
  }

  lemma SettledExactly(g: Campaign, k: nat, p: nat)
    requires WellFormed(g) && 3 <= k
    ensures p < Settled(g, k, |g.cases|) <==> p < |g.cases| && Len(g, p + 1) <= k
  {
    hide Len, Settled;
    var settled := Settled(g, k, |g.cases|);
    SettledIsBetween(g, k, |g.cases|);
    if p < settled {
      LenIsMonotone(g, p + 1, settled);
    } else if p < |g.cases| {
      LenIsMonotone(g, settled + 1, p + 1);
    }
  }

  /** The counters of the scan of the first k lines are those that the writer had after the cases
      it had settled. */
  predicate CountsAgree(g: Campaign, k: nat)
    requires WellFormed(g) && k <= |Body(g)|
  {
    ScanAll(FRESH, Numbered(g.runId, 1, Body(g)[..k])).tally == CasesTally(g.cases, g.fates, Settled(g, k, |g.cases|))
  }

  lemma CountsOfCut(g: Campaign, k: nat)
    requires WellFormed(g) && 3 <= k <= |Body(g)| < TWO_TO_53
    ensures ScanAll(FRESH, Numbered(g.runId, 1, Body(g)[..k])).tally == ScannedTally(g, Settled(g, k, |g.cases|))
  {
    hide ScanAll, Expected, Settled, Below, Ids, StartsUpTo, StartRecord, ScannedTally, CasesEntries;
    CutLogIsScanned(g, k);
    ExpectedFields(g, k, Settled(g, k, |g.cases|));
  }

  /** When status and error text agree in every settled case, the four counters are the writer's. */
  lemma ScanCountsAsTheWriterDid(g: Campaign, k: nat)
    requires WellFormed(g) && 3 <= k <= |Body(g)| < TWO_TO_53
    requires ConsistentUpTo(g, Settled(g, k, |g.cases|))
    ensures CountsAgree(g, k)
  {
    hide ScanAll, Settled, ScannedTally, CasesTally, Body, ConsistentUpTo;
    CountsOfCut(g, k);
    TalliesAgree(g, Settled(g, k, |g.cases|));
  }

  /** Wherever the log of a campaign is cut, the counters are the writer's: exactly when status and
      error text agree in every case. */
  lemma CountsAgreeExactly(g: Campaign)
    requires WellFormed(g) && |Body(g)| < TWO_TO_53
    ensures (forall k :: 3 <= k <= |Body(g)| ==> CountsAgree(g, k)) <==> ConsistentUpTo(g, |g.cases|)
  {
    hide CountsAgree, Body, Settled, Consistent, Len, ScannedTally, CasesTally;
    BodyLength(g);
    if ConsistentUpTo(g, |g.cases|) {
      forall k | 3 <= k <= |Body(g)| ensures CountsAgree(g, k) {
        ScanCountsAsTheWriterDid(g, k);
      }
    }
    if forall k :: 3 <= k <= |Body(g)| ==> CountsAgree(g, k) {
      forall p | 0 <= p < |g.cases| ensures Consistent(g.cases[p], g.fates[p]) {
        CutAfterCase(g, p);
        CutAfterCase(g, p + 1);
        SameStepSameVerdict(g, p);
      }
    }
  }

  lemma BodyLength(g: Campaign)
    requires WellFormed(g)
    ensures |Body(g)| == Len(g, |g.cases|)
  {
    hide CasesEntries;
  }

  /** The cut right behind the lines of the first p cases. */
  lemma CutAfterCase(g: Campaign, p: nat)
    requires WellFormed(g) && p <= |g.cases| && |Body(g)| < TWO_TO_53
    ensures 3 <= Len(g, p) <= |Body(g)|
    ensures CountsAgree(g, Len(g, p)) <==> ScannedTally(g, p) == CasesTally(g.cases, g.fates, p)
  {
    hide ScanAll, Settled, ScannedTally, CasesTally, Body, Len;
    BodyLength(g);
    NoCasesYet(g);
    LenIsMonotone(g, 0, p);
    LenIsMonotone(g, p, |g.cases|);
    SettledAfterCase(g, p);
    CountsOfCut(g, Len(g, p));
  }

  lemma SettledAfterCase(g: Campaign, p: nat)
    requires WellFormed(g) && p <= |g.cases| && 3 <= Len(g, p)
    ensures Settled(g, Len(g, p), |g.cases|) == p
  {
    hide Settled, Len;
    var settled := Settled(g, Len(g, p), |g.cases|);
    SettledIsBetween(g, Len(g, p), |g.cases|);
    if settled < p {
      LenIsMonotone(g, settled + 1, p);
    } else {
      LenIsMonotone(g, p, settled);
    }
  }

  lemma CountIsInjective(t: Tally, v: Verdict, w: Verdict)
    requires Count(t, v) == Count(t, w)
    ensures v == w
  {
  }

  lemma SameStepSameVerdict(g: Campaign, p: nat)
    requires WellFormed(g) && p < |g.cases| && ScannedTally(g, p) == CasesTally(g.cases, g.fates, p)
    requires ScannedTally(g, p + 1) == CasesTally(g.cases, g.fates, p + 1)
    ensures Consistent(g.cases[p], g.fates[p])
  {
    hide Consistent, ScannedVerdict, WrittenVerdict, Count;
    CountIsInjective(ScannedTally(g, p), ScannedVerdict(g.cases[p], g.fates[p]),
                     WrittenVerdict(g.cases[p], g.fates[p]));
    VerdictsAgreeExactly(g.cases[p], g.fates[p]);
  }

  // ----- what is pending -----

  lemma {:induction false} StartsLieBelow(g: Campaign, p: nat, i: nat)
    requires WellFormed(g) && p <= |g.cases| && i in StartsUpTo(g, p)
    ensures i < p
  {
    hide StartRecord;
    if i != p - 1 {
      StartsLieBelow(g, p - 1, i);
    }
  }

  lemma {:induction false} SettledAreNotPending(s: Scan, p: nat, m: nat)
    requires m <= p && s.resolved == Below(p)
    ensures PendingUpTo(s, m) == Pending([])
  {
    hide Below;
    if m > 0 {
      InBelow(p, m - 1);
      SettledAreNotPending(s, p, m - 1);
    }
  }

  /** With p positions resolved and nothing started behind position p. */
  lemma PendingOf(s: Scan, p: nat, n: nat)
    requires s.runId != "" && |s.plan| == n > 0 && p <= n && s.resolved == Below(p) && p + 1 !in s.starts
    ensures WhatIsPending(s)
         == if p == n then NothingToDo
            else if p !in s.starts then NoCaseStart(p)
            else if p == n - 1 then Pending([n - 1])
            else NoCaseStart(p + 1)
  {
    hide Below;
    SettledAreNotPending(s, p, p);
    InBelow(p, p);
    InBelow(p, p + 1);
    if p < n {
      assert PendingUpTo(s, p + 1) == if p in s.starts then Pending([p]) else NoCaseStart(p);
      if p !in s.starts {
        StopsForGood(s, p + 1, n);
      } else if p < n - 1 {
        assert PendingUpTo(s, p + 2) == NoCaseStart(p + 1);
        StopsForGood(s, p + 2, n);
      }
    }
  }

  /** What the resume makes of a cut log: it goes on exactly when the cut falls inside the lines
      of the last case, and then with that case alone; otherwise it says where it stops. */
  lemma ResumesExactly(g: Campaign, k: nat)
    requires WellFormed(g) && g.runId != "" && g.cases != [] && 3 <= k <= Len(g, |g.cases|) < TWO_TO_53
    ensures var n := |g.cases|;
      var p := Settled(g, k, n);
      WhatIsPending(ScanAll(FRESH, Numbered(g.runId, 1, Body(g)[..k])))
      == if p == n then NothingToDo
         else if k == Len(g, p) then NoCaseStart(p)
         else if p == n - 1 then Pending([n - 1])
         else NoCaseStart(p + 1)
  {
    hide ScanAll, Expected, Settled, Len, Below, StartsUpTo;
    hide StartRecord, ScannedTally, WhatIsPending, Ids, Numbered, Body;
    var n := |g.cases|;
    var p := Settled(g, k, n);
    var s := Expected(g, k);
    CutLogIsScanned(g, k);
    ExpectedFields(g, k, p);
    SettledIsBetween(g, k, n);
    if p in StartsUpTo(g, p) {
      StartsLieBelow(g, p, p);
    }
    if p + 1 in StartsUpTo(g, p) {
      StartsLieBelow(g, p, p + 1);
    }
    PendingOf(s, p, n);
  }

  /** When it goes on, one more verdict makes the counters sum to the length of the plan. */
  lemma ResumedCountersSumToPlan(g: Campaign, k: nat, verdict: Verdict)
    requires WellFormed(g) && g.runId != "" && g.cases != [] && 3 <= k <= Len(g, |g.cases|) < TWO_TO_53
    requires WhatIsPending(ScanAll(FRESH, Numbered(g.runId, 1, Body(g)[..k]))).Pending?
    ensures Sum(Count(ScanAll(FRESH, Numbered(g.runId, 1, Body(g)[..k])).tally, verdict)) == |g.cases|
  {
    hide ScanAll, Expected, Settled, Len, Below, StartsUpTo, StartRecord, ScannedTally, WhatIsPending, Ids, Sum, Count;
    var p := Settled(g, k, |g.cases|);
    ResumesExactly(g, k);
    CutLogIsScanned(g, k);
    ExpectedFields(g, k, p);
    ScannedTallyCountsEveryCase(g, p);
    CountAddsOne(ScannedTally(g, p), verdict);
  }

  /** A cut in the opening lines is no campaign. */
  lemma OpeningAloneIsNoCampaign(g: Campaign, k: nat)
    requires WellFormed(g) && k < 3
    ensures WhatIsPending(ScanAll(FRESH, Numbered(g.runId, 1, Body(g)[..k]))) == NotACampaign
  {
    hide ScanAll, ScanOne, Record, CasesEntries, Opening;
    OpeningIsScanned(g, k);
    assert Body(g)[..k] == Opening(g)[..k];
    assert Numbered(g.runId, 1, Opening(g)[..k]) == Numbered(g.runId, 1, Opening(g))[..k];
  }
}
