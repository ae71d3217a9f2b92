/** `resume_campaign` of loadtests/campaign.cpp from the bytes of the partial file to the final
    file, and what follows for a campaign that was interrupted: its file, cut anywhere, is read as
    its complete records; and resumed at a line end, it becomes one log to its run_end, with
    sequence numbers that go on and counters that sum to the length of the plan. */
module CampaignContinued {
  import opened Json
  import opened JsonRoundTrip
  import opened Text
  import opened CaseId
  import opened CampaignLog
  import opened CampaignScan
  import opened CampaignResume
  import opened CampaignText
  import opened CampaignRun
  import opened CaseRestored
  import opened JsonlWriter
  import opened Sha256Code

  datatype Resumed =
    | NoPartialFile | FinalExists | Corrupt(line: nat) | NotPending(why: Plan)
    | WriteFailed
    | Finished(status: string)

  function RestoredAt(s: Scan, positions: seq<nat>): (cases: seq<Case>)
    requires forall i :: 0 <= i < |positions| ==> positions[i] in s.starts
    ensures |cases| == |positions|
    ensures forall i :: 0 <= i < |positions| ==> cases[i] == Restored(s.starts[positions[i]])
  {
    seq(|positions|, i requires 0 <= i < |positions| => Restored(s.starts[positions[i]]))
  }

  function PendingCases(s: Scan): seq<Case>
    requires WhatIsPending(s).Pending?
  {
    RestoredAt(s, WhatIsPending(s).positions)
  }

  /** What will happen to the first n pending cases. */
  function Fates(fates: nat -> Fate, n: nat): (all: seq<Fate>)
    ensures |all| == n && forall i :: 0 <= i < n ==> all[i] == fates(i)
  {
    seq(n, i requires 0 <= i < n => fates(i))
  }

  /** The counters at the end of the resume. */
  function ResumedTally(s: Scan, fates: nat -> Fate): Tally
    requires WhatIsPending(s).Pending?
  {
    var cases := PendingCases(s);
    CountAll(s.tally, cases, Fates(fates, |cases|), |cases|)
  }

  function ResumedCases(s: Scan, fates: nat -> Fate): seq<Entry>
    requires WhatIsPending(s).Pending?
  {
    var cases := PendingCases(s);
    CasesEntries(cases, Fates(fates, |cases|), |cases|)
  }

  /** The bytes before run_end. */
  function ResumedText(content: string, s: Scan, fates: nat -> Fate): string
    requires WhatIsPending(s).Pending?
  {
    FileOf(content, s.runId, s.sequence, ResumedCases(s, fates))
  }

  /** The lines that are appended. */
  function Appended(content: string, s: Scan, fates: nat -> Fate): seq<Entry>
    requires WhatIsPending(s).Pending?
  {
    ResumedCases(s, fates) + [RunEnd(ResumedTally(s, fates), ContentHash(ResumedText(content, s, fates)))]
  }

  // ----- the code -----

  method RestoreCases(scanner: Scanner, positions: seq<nat>) returns (cases: seq<Case>)
    requires forall i :: 0 <= i < |positions| ==> positions[i] in scanner.starts
    ensures cases == RestoredAt(scanner.Abs(), positions)
  {
    hide Restored;
    cases := [];
    for i := 0 to |positions|
      invariant |cases| == i
      invariant forall j :: 0 <= j < i ==> cases[j] == Restored(scanner.starts[positions[j]])
    {
      cases := cases + [Restored(scanner.starts[positions[i]])];
    }
  }

  /** Reads the partial file, and goes on behind its last byte. */
  method ResumeCampaign(writer: Writer, partial: string, final: string, fates: nat -> Fate) returns (r: Resumed)
    requires !writer.isOpen && !writer.failed && partial != final
    requires partial in writer.disk.files ==> FitsHash(writer.disk.files[partial], fates)
    modifies writer, writer.disk
    ensures r.NoPartialFile? <==> partial !in old(writer.disk.files)
    ensures r.FinalExists? <==> partial in old(writer.disk.files) && final in old(writer.disk.files)
    ensures r.Corrupt? <==>
      && partial in old(writer.disk.files) && final !in old(writer.disk.files)
      && exists n :: IsBadLine(old(writer.disk.files[partial]), n)
    ensures r.Corrupt? ==> IsBadLine(old(writer.disk.files[partial]), r.line)
    ensures r.NotPending? <==>
      && partial in old(writer.disk.files) && final !in old(writer.disk.files)
      && (forall n :: !IsBadLine(old(writer.disk.files[partial]), n))
      && !CanResume(old(writer.disk.files[partial]))
    ensures r.NotPending? ==>
      && ScanText(old(writer.disk.files[partial])).Scanned?
      && WhatIsPending(ScanText(old(writer.disk.files[partial])).s) == r.why && !r.why.Pending?
    ensures r.WriteFailed? <==> writer.failed
    ensures r.NoPartialFile? || r.FinalExists? || r.Corrupt? || r.NotPending? ==>
      writer.disk.files == old(writer.disk.files)
    ensures r.WriteFailed? || r.Finished? ==>
      && partial in old(writer.disk.files) && final !in old(writer.disk.files)
      && CanResume(old(writer.disk.files[partial]))
    ensures r.WriteFailed? ==>
      var content := old(writer.disk.files[partial]);
      var s := ScanText(content).s;
      && final !in writer.disk.files && partial in writer.disk.files
      && writer.disk.files[partial] <= FileOf(content, s.runId, s.sequence, Appended(content, s, fates))
    ensures r.Finished? ==>
      var content := old(writer.disk.files[partial]);
      var s := ScanText(content).s;
      && partial !in writer.disk.files && final in writer.disk.files
      && writer.disk.files[final] == FileOf(content, s.runId, s.sequence, Appended(content, s, fates))
      && r.status == OverallStatus(ResumedTally(s, fates))
  {
    hide ScanText, WhatIsPending, Appended, FileOf, FitsHash, ResumedTally, OverallStatus, IsBadLine;
    if partial !in writer.disk.files {
      return NoPartialFile;
    }
    if final in writer.disk.files {
      return FinalExists;
    }
    var content := writer.disk.files[partial];
    var scanner := new Scanner();
    var badLine := ScanContent(scanner, content);
    if badLine.Some? {
      return Corrupt(badLine.value);
    }
    var pending := scanner.CollectPending();
    if !pending.Pending? {
      return NotPending(pending);
    }
    ghost var s := scanner.Abs();
    PendingHaveStarts(s);
    var cases := RestoreCases(scanner, pending.positions);
    r := Continue(writer, partial, final, content, s, scanner.runId, scanner.sequence, scanner.tally, cases, fates);
  }

  /** Appends the pending cases and run_end, and renames the file. */
  method Continue(writer: Writer, partial: string, final: string, content: string, ghost s: Scan,
                  runId: string, sequence: nat, tally: Tally, cases: seq<Case>, fates: nat -> Fate)
    returns (r: Resumed)
    requires !writer.isOpen && !writer.failed
    requires partial != final && partial in writer.disk.files && final !in writer.disk.files
    requires writer.disk.files[partial] == content && FitsHash(content, fates)
    requires ScanText(content) == Scanned(s) && WhatIsPending(s).Pending? && cases == PendingCases(s)
    requires runId == s.runId && sequence == s.sequence && tally == s.tally
    modifies writer, writer.disk
    ensures if writer.failed then r.WriteFailed? else r.Finished?
    ensures r.WriteFailed? ==>
      && final !in writer.disk.files && partial in writer.disk.files
      && writer.disk.files[partial] <= FileOf(content, s.runId, s.sequence, Appended(content, s, fates))
    ensures r.Finished? ==>
      && partial !in writer.disk.files && final in writer.disk.files
      && writer.disk.files[final] == FileOf(content, s.runId, s.sequence, Appended(content, s, fates))
      && r.status == OverallStatus(ResumedTally(s, fates))
  {
    hide ScanText, WhatIsPending, FileOf, OverallStatus, CasesEntries, CountAll, ContentHash, RunEnd, PendingCases;
    r := WriteFailed;
    ghost var all := Appended(content, s, fates);
    StartsTheFile(content, s.runId, s.sequence, all);
    var ok := writer.Reopen(partial, final, content);
    if !ok {
      return;
    }
    var recorder := new Recorder(writer, runId, sequence, tally);
    assert recorder.written + ResumedCases(s, fates) == ResumedCases(s, fates);
    ok := recorder.RunCases(cases, Fates(fates, |cases|), all);
    if !ok {
      return;
    }
    ok := recorder.End(all);
    if !ok {
      return;
    }
    ok := writer.Finish();
    if ok {
      r := Finished(OverallStatus(recorder.tally));
    }
  }

  lemma StartsTheFile(base: string, runId: string, first: nat, all: seq<Entry>)
    ensures base <= FileOf(base, runId, first, all)
  {
    hide TextOf;
  }

  predicate CanResume(content: string) {
    ScanText(content).Scanned? && WhatIsPending(ScanText(content).s).Pending?
  }

  lemma PendingHaveStarts(s: Scan)
    requires WhatIsPending(s).Pending?
    ensures forall i :: 0 <= i < |WhatIsPending(s).positions| ==> WhatIsPending(s).positions[i] in s.starts
  {
    hide PendingUpTo;
  }

  /** The file stays below 2^61 bytes, so that its length in bits fits the hash. */
  predicate FitsHash(content: string, fates: nat -> Fate) {
    CanResume(content) ==> |ResumedText(content, ScanText(content).s, fates)| < TWO_TO_61
  }

  // ----- every record prints -----

  lemma AppendPrints(a: seq<Member>, b: seq<Member>)
    requires AllPrintable(a) && AllPrintable(b)
    ensures AllPrintable(a + b)
  {
    hide Printable;
  }

  lemma EntriesAppend(a: seq<Entry>, b: seq<Entry>)
    requires PrintableEntries(a) && PrintableEntries(b)
    ensures PrintableEntries(a + b)
  {
    hide PrintableEntry;
  }

  lemma UintPrints(n: nat)
    ensures Printable(Uint(n))
  {
    DecimalIsToken(n);
  }

  lemma ParamsPrint(c: Case)
    ensures AllPrintable(CaseParams(c))
  {
    hide IsToken;
    UintPrints(c.objects);
    UintPrints(c.batch);
    UintPrints(c.concurrency);
    UintPrints(c.readers);
    UintPrints(c.checkpointInterval);
    UintPrints(c.repeatIndex);
    AppendPrints(LoadParams(c), StoreParams(c));
    AppendPrints(PlaceParams(c), LoadParams(c) + StoreParams(c));
  }

  lemma OfCasePrints(kind: string, c: Case, fields: seq<Member>)
    requires AllPrintable(fields)
    ensures PrintableEntry(OfCase(kind, c, fields))
  {
    hide IdOf;
    AppendPrints([Member("case_id", Str(IdOf(c)))], fields);
  }

  lemma PhasePrints(c: Case, p: PhaseRun)
    requires PrintablePhase(p)
    ensures PrintableEntries(OnePhase(c, p))
  {
    hide OfCase;
    var name := [Member("phase", Str(p.phase))];
    OfCasePrints("phase_start", c, name);
    AppendPrints(name, p.summary);
    OfCasePrints("phase_summary", c, name + p.summary);
    if p.stages.Some? {
      OfCasePrints("stage_profile", c, p.stages.value);
    }
  }

  lemma {:induction false} PhasesPrint(c: Case, phases: seq<PhaseRun>)
    requires forall i :: 0 <= i < |phases| ==> PrintablePhase(phases[i])
    ensures PrintableEntries(Phases(c, phases))
  {
    hide OnePhase, PrintablePhase;
    if phases != [] {
      var last := |phases| - 1;
      PhasesPrint(c, phases[..last]);
      PhasePrints(c, phases[last]);
      EntriesAppend(Phases(c, phases[..last]), OnePhase(c, phases[last]));
    }
  }

  lemma WindowsPrint(c: Case, windows: seq<seq<Member>>)
    requires forall i :: 0 <= i < |windows| ==> AllPrintable(windows[i])
    ensures PrintableEntries(Windows(c, windows))
  {
    hide OfCase, AllPrintable;
    forall i | 0 <= i < |windows| ensures PrintableEntry(OfCase("progress_window", c, windows[i])) {
      OfCasePrints("progress_window", c, windows[i]);
    }
  }

  lemma VerdictPrints(c: Case, fate: Fate)
    requires PrintableFate(fate)
    ensures PrintableEntry(VerdictEntry(c, fate))
  {
    hide OfCase, NotImplementedText;
    match fate {
      case Skipped(reason, estimate) =>
        AppendPrints([Member("reason", Str(reason))], estimate);
        OfCasePrints("skipped_budget", c, [Member("reason", Str(reason))] + estimate);
      case Executed(run) =>
        OfCasePrints("case_error", c, [Member("error", Str(NotImplementedText(c.workload)))]);
        OfCasePrints("case_error", c, [Member("error", Str(run.error))]);
        AppendPrints([Member("status", Str(run.status))], run.details);
        OfCasePrints("case_summary", c, [Member("status", Str(run.status))] + run.details);
    }
  }

  lemma CasePrints(c: Case, fate: Fate)
    requires PrintableFate(fate)
    ensures PrintableEntries(CaseEntries(c, fate))
  {
    hide VerdictEntry, CaseStart, Windows, Phases, PrintableEntry;
    VerdictPrints(c, fate);
    StartPrints(c);
    if fate.Executed? && Implemented(c) {
      WindowsPrint(c, fate.run.windows);
      PhasesPrint(c, fate.run.phases);
      EntriesAppend(Windows(c, fate.run.windows), Phases(c, fate.run.phases));
      EntriesAppend([CaseStart(c)], Windows(c, fate.run.windows) + Phases(c, fate.run.phases));
    }
    EntriesAppend(BeforeVerdict(c, fate), [VerdictEntry(c, fate)]);
  }

  lemma StartPrints(c: Case)
    ensures PrintableEntry(CaseStart(c))
  {
    hide CaseParams, OfCase;
    ParamsPrint(c);
    OfCasePrints("case_start", c, CaseParams(c));
  }

  lemma {:induction false} CasesPrint(cases: seq<Case>, fates: seq<Fate>, n: nat)
    requires |cases| == |fates| && n <= |cases|
    requires forall i :: 0 <= i < |fates| ==> PrintableFate(fates[i])
    ensures PrintableEntries(CasesEntries(cases, fates, n))
  {
    hide CaseEntries, PrintableFate, PrintableEntry;
    if n > 0 {
      CasesPrint(cases, fates, n - 1);
      CasePrints(cases[n - 1], fates[n - 1]);
      EntriesAppend(CasesEntries(cases, fates, n - 1), CaseEntries(cases[n - 1], fates[n - 1]));
    }
  }

  lemma OpeningPrints(g: Campaign)
    requires PrintableCampaign(g)
    ensures PrintableEntries(Opening(g))
  {
    hide IsToken, Ids;
    UintPrints(|g.cases|);
    TextsPrint(Ids(g.cases));
  }

  lemma TextsPrint(ids: seq<string>)
    ensures Printable(Arr(Texts(ids)))
  {
    forall i | 0 <= i < |ids| ensures Printable(Texts(ids)[i]) {
      assert Texts(ids)[i] == Str(ids[i]);
    }
  }

  lemma EndPrints(t: Tally, hash: string)
    ensures PrintableEntry(RunEnd(t, hash))
  {
    hide IsToken, OverallStatus;
    UintPrints(t.completed);
    UintPrints(t.failed);
    UintPrints(t.unimplemented);
    UintPrints(t.skippedBudget);
  }

  lemma RecordPrints(runId: string, n: nat, e: Entry)
    requires PrintableEntry(e)
    ensures Record(runId, n, e).Obj? && Printable(Record(runId, n, e))
  {
    UintPrints(n);
    AppendPrints(Header(e.kind, runId, n), e.fields);
  }

  lemma LogPrints(g: Campaign)
    requires WellFormed(g) && PrintableCampaign(g)
    ensures IsLogOf(Numbered(g.runId, 1, WholeLog(g)))
  {
    hide Opening, CasesEntries, RunEnd, Record, PrintableEntry, LogText, CasesTally, ContentHash, PrintableFate;
    var end := RunEnd(CasesTally(g.cases, g.fates, |g.cases|), ContentHash(LogText(g)));
    OpeningPrints(g);
    CasesPrint(g.cases, g.fates, |g.cases|);
    EndPrints(CasesTally(g.cases, g.fates, |g.cases|), ContentHash(LogText(g)));
    EntriesAppend(Opening(g), CasesEntries(g.cases, g.fates, |g.cases|));
    EntriesAppend(Body(g), [end]);
    forall i | 0 <= i < |WholeLog(g)|
      ensures Record(g.runId, 1 + i, WholeLog(g)[i]).Obj? && Printable(Record(g.runId, 1 + i, WholeLog(g)[i]))
    {
      RecordPrints(g.runId, 1 + i, WholeLog(g)[i]);
    }
  }

  // ----- main results -----

  lemma RunEndIsIgnored(s: Scan, runId: string, n: nat, t: Tally, hash: string)
    requires s.sequence <= n < TWO_TO_53
    ensures ScanOne(s, Record(runId, n, RunEnd(t, hash))) == s.(sequence := n)
  {
    hide OverallStatus;
    RecordIsNoted(s, runId, n, RunEnd(t, hash));
  }

  lemma PendingIgnoresSequence(s: Scan, n: nat, m: nat)
    ensures PendingUpTo(s.(sequence := n), m) == PendingUpTo(s, m)
    ensures WhatIsPending(s.(sequence := n)) == WhatIsPending(s)
  {
    SamePending(s, s.(sequence := n), m);
    SamePending(s, s.(sequence := n), |s.plan|);
  }

  lemma {:induction false} SamePending(s: Scan, t: Scan, m: nat)
    requires s.starts == t.starts && s.resolved == t.resolved
    ensures PendingUpTo(s, m) == PendingUpTo(t, m)
  {
    if m > 0 {
      SamePending(s, t, m - 1);
    }
  }

  /** What the resume does with the first k lines of the log of a campaign. */
  function PlanAfter(g: Campaign, k: nat): Plan
    requires WellFormed(g)
  {
    var n := |g.cases|;
    var p := Settled(g, k, n);
    if k < 3 then NotACampaign
    else if p == n then NothingToDo
    else if k == Len(g, p) then NoCaseStart(p)
    else if p == n - 1 then Pending([n - 1])
    else NoCaseStart(p + 1)
  }

  lemma LinesResume(g: Campaign, k: nat)
    requires WellFormed(g) && g.runId != "" && g.cases != []
    requires |WholeLog(g)| < TWO_TO_53 && k <= |WholeLog(g)|
    ensures WhatIsPending(ScanAll(FRESH, Numbered(g.runId, 1, WholeLog(g))[..k])) == PlanAfter(g, k)
  {
    hide ScanAll, WhatIsPending, RunEnd, Settled, CasesEntries, Opening;
    hide ScanOne, Record, ContentHash, LogText, CasesTally;
    var records := Numbered(g.runId, 1, WholeLog(g));
    var body := Body(g);
    if k <= |body| {
      assert records[..k] == Numbered(g.runId, 1, body[..k]);
      if k < 3 {
        OpeningAloneIsNoCampaign(g, k);
      } else {
        ResumesExactly(g, k);
      }
    } else {
      var before := Numbered(g.runId, 1, body);
      var t, hash := CasesTally(g.cases, g.fates, |g.cases|), ContentHash(LogText(g));
      assert body[..|body|] == body;
      assert records[..k] == before + [Record(g.runId, k, RunEnd(t, hash))];
      ScanOneMore(FRESH, before, Record(g.runId, k, RunEnd(t, hash)));
      ScanResolvesExactly(g, |body|, 0);
      RunEndIsIgnored(ScanAll(FRESH, before), g.runId, k, t, hash);
      PendingIgnoresSequence(ScanAll(FRESH, before), k, 0);
      ResumesExactly(g, |body|);
      AllSettled(g, k);
      AllSettled(g, |body|);
    }
  }

  lemma AllSettled(g: Campaign, k: nat)
    requires WellFormed(g) && k >= Len(g, |g.cases|)
    ensures Settled(g, k, |g.cases|) == |g.cases|
  {
    hide Len;
  }

  /** A campaign that was interrupted leaves its log cut at some byte. The scan never takes the
      torn line for a record nor the file for corrupt, and resumes exactly when the last case is
      the only one without a verdict. */
  lemma AnyInterruptionIsRead(g: Campaign, b: nat)
    requires WellFormed(g) && PrintableCampaign(g) && g.runId != "" && g.cases != []
    requires |WholeLog(g)| < TWO_TO_53
    requires b <= |TextOf(Numbered(g.runId, 1, WholeLog(g)))|
    ensures var records := Numbered(g.runId, 1, WholeLog(g));
      var r := ScanText(TextOf(records)[..b]);
      r.Scanned? && WhatIsPending(r.s) == PlanAfter(g, Whole(records, b))
  {
    hide ScanText, ScanAll, WhatIsPending, PlanAfter, WholeLog, TextOf, IsLogOf, Whole;
    var records := Numbered(g.runId, 1, WholeLog(g));
    LogPrints(g);
    AnyCutIsScanned(records, b);
    LinesResume(g, Whole(records, b));
  }

  lemma {:induction false} TextAppends(a: seq<Json>, b: seq<Json>)
    ensures TextOf(a + b) == TextOf(a) + TextOf(b)
  {
    hide Print;
    if b == [] {
      assert a + b == a;
    } else {
      var last := |b| - 1;
      assert (a + b)[..|a + b| - 1] == a + b[..last] && (a + b)[|a + b| - 1] == b[last];
      TextAppends(a, b[..last]);
      Regroup(TextOf(a), TextOf(b[..last]), Print(b[last]) + "\n");
    }
  }

  /** Resumed at a line end, the file is one log whose sequence numbers go on. */
  lemma ResumedFileIsOneLog(runId: string, before: seq<Entry>, appended: seq<Entry>)
    ensures FileOf(TextOf(Numbered(runId, 1, before)), runId, |before|, appended)
         == TextOf(Numbered(runId, 1, before + appended))
  {
    hide TextOf;
    NumberedAppends(runId, 1, before, appended);
    TextAppends(Numbered(runId, 1, before), Numbered(runId, 1 + |before|, appended));
  }

  /** The hash in run_end is that of exactly the bytes before that line, after a run and after a
      resume. */
  lemma RunEndHashesWhatPrecedes(g: Campaign, content: string, s: Scan, fates: nat -> Fate)
    requires WellFormed(g) && WhatIsPending(s).Pending?
    ensures TextOf(Numbered(g.runId, 1, WholeLog(g)))
         == LogText(g) + Print(Record(g.runId, |Body(g)| + 1,
                                      RunEnd(CasesTally(g.cases, g.fates, |g.cases|), ContentHash(LogText(g))))) + "\n"
    ensures var text := ResumedText(content, s, fates);
      FileOf(content, s.runId, s.sequence, Appended(content, s, fates))
      == text + Print(Record(s.runId, s.sequence + |ResumedCases(s, fates)| + 1,
                             RunEnd(ResumedTally(s, fates), ContentHash(text)))) + "\n"
  {
    hide FileOf, TextOf, Print, Record, RunEnd, Body, ContentHash;
    hide CasesTally, ResumedCases, WhatIsPending, ResumedTally;
    FileIsLogText(g);
    FileFromNothing(g.runId, WholeLog(g));
    FileGrows("", g.runId, 0, Body(g), RunEnd(CasesTally(g.cases, g.fates, |g.cases|), ContentHash(LogText(g))));
    FileGrows(content, s.runId, s.sequence, ResumedCases(s, fates),
              RunEnd(ResumedTally(s, fates), ContentHash(ResumedText(content, s, fates))));
  }

  /** In a log the sequence numbers rise from line to line. */
  lemma SequencesRise(runId: string, entries: seq<Entry>, i: nat, j: nat)
    requires i < j < |entries| && |entries| < TWO_TO_53
    ensures GetUint(Numbered(runId, 1, entries)[i], "sequence") < GetUint(Numbered(runId, 1, entries)[j], "sequence")
  {
    hide Rounded, GetUint, Record;
    SequenceOf(runId, 1 + i, entries[i]);
    SequenceOf(runId, 1 + j, entries[j]);
  }

  lemma SequenceOf(runId: string, n: nat, e: Entry)
    requires n < TWO_TO_53
    ensures GetUint(Record(runId, n, e), "sequence") == n
  {
    hide Rounded;
    HeaderFields(e.kind, runId, n, e.fields, "sequence");
    UintIsRead(Record(runId, n, e), "sequence", n);
    RoundedIsExact(n);
  }

  /** The whole way: a campaign cut at a line end inside its last case is resumed with that case,
      its counters sum to the length of the plan, and the file is one log to its run_end. */
  lemma ResumeCompletesTheLog(g: Campaign, k: nat, fates: nat -> Fate)
    requires WellFormed(g) && PrintableCampaign(g) && g.runId != "" && g.cases != []
    requires 3 <= k <= |Body(g)| < TWO_TO_53 && PlanAfter(g, k).Pending?
    ensures var content := TextOf(Numbered(g.runId, 1, Body(g)[..k]));
      var s := ScanAll(FRESH, Numbered(g.runId, 1, Body(g)[..k]));
      && ScanText(content) == Scanned(s) && WhatIsPending(s) == Pending([|g.cases| - 1])
      && PendingCases(s) == [Restored(StartRecord(g, |g.cases| - 1))]
      && Sum(ResumedTally(s, fates)) == |g.cases|
      && FileOf(content, s.runId, s.sequence, Appended(content, s, fates))
         == TextOf(Numbered(g.runId, 1, Body(g)[..k] + Appended(content, s, fates)))
  {
    hide ScanText, ScanAll, WhatIsPending, TextOf, Body, Appended, StartRecord, Restored, Count, Sum, FileOf, IsLogOf,
      Settled, Len, ContentHash, RunEnd, CasesEntries, WrittenVerdict, ResumedCases;
    var cut := Body(g)[..k];
    var s := ScanAll(FRESH, Numbered(g.runId, 1, cut));
    BodyLength(g);
    CutPrints(g, k);
    WholeFile(Numbered(g.runId, 1, cut));
    ResumesExactly(g, k);
    ScanResolvesExactly(g, k, 0);
    StartOfLast(g, k);
    var cases := PendingCases(s);
    assert |cases| == 1;
    OneCounted(s.tally, cases, fates);
    ResumedCountersSumToPlan(g, k, WrittenVerdict(cases[0], fates(0)));
    ResumedFileIsOneLog(g.runId, cut, Appended(TextOf(Numbered(g.runId, 1, cut)), s, fates));
  }

  lemma OneCounted(t: Tally, cases: seq<Case>, fates: nat -> Fate)
    requires |cases| == 1
    ensures CountAll(t, cases, Fates(fates, 1), 1) == Count(t, WrittenVerdict(cases[0], fates(0)))
  {
    hide WrittenVerdict, Count;
    assert CountAll(t, cases, Fates(fates, 1), 0) == t;
  }

  lemma CutPrints(g: Campaign, k: nat)
    requires WellFormed(g) && PrintableCampaign(g) && k <= |Body(g)|
    ensures IsLogOf(Numbered(g.runId, 1, Body(g)[..k]))
  {
    hide Body, Record, PrintableCampaign, RunEnd, ContentHash, CasesTally, LogText, Printable;
    LogPrints(g);
    var all, cut := Numbered(g.runId, 1, WholeLog(g)), Numbered(g.runId, 1, Body(g)[..k]);
    forall i | 0 <= i < k ensures cut[i].Obj? && Printable(cut[i]) {
      assert all[i] == cut[i];
    }
  }

  /** The case_start that the scan holds for the last position. */
  lemma StartOfLast(g: Campaign, k: nat)
    requires WellFormed(g) && 3 <= k <= |Body(g)| < TWO_TO_53 && PlanAfter(g, k).Pending?
    ensures var s := ScanAll(FRESH, Numbered(g.runId, 1, Body(g)[..k]));
      |g.cases| - 1 in s.starts && s.starts[|g.cases| - 1] == StartRecord(g, |g.cases| - 1)
  {
    hide ScanAll, CampaignResume.Expected, Settled, Below, Ids, StartsUpTo, StartRecord, ScannedTally, CasesEntries;
    CutLogIsScanned(g, k);
    ExpectedFields(g, k, Settled(g, k, |g.cases|));
    SettledIsBetween(g, k, |g.cases|);
  }
}
