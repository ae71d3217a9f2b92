/** `run_campaign` of loadtests/campaign.cpp, and the part it shares with `resume_campaign`, as far as
    they write records: every line goes through the crash-safe writer with the next sequence
    number. As long as no write fails, the file is exactly what was written; the first write that
    fails leaves the planned file, cut somewhere, and nothing is written after it. */
module CampaignRun {
  import opened Json
  import opened Text
  import opened CaseId
  import opened CampaignLog
  import opened JsonlWriter
  import opened Sha256Code

  /** What the file holds before the first entry, and then these entries. */
  function FileOf(base: string, runId: string, first: nat, entries: seq<Entry>): string {
    base + TextOf(Numbered(runId, first + 1, entries))
  }

  lemma FileGrows(base: string, runId: string, first: nat, entries: seq<Entry>, e: Entry)
    ensures FileOf(base, runId, first, entries + [e])
         == FileOf(base, runId, first, entries) + Print(Record(runId, first + |entries| + 1, e)) + "\n"
  {
    hide Print, Record, TextOf;
    var records := Numbered(runId, first + 1, entries);
    var v := Record(runId, first + |entries| + 1, e);
    assert Numbered(runId, first + 1, entries + [e]) == records + [v];
    TextOfOneMore(records, v);
    Regroup(base, TextOf(records), Print(v));
    Regroup(base, TextOf(records) + Print(v), "\n");
  }

  lemma {:induction false} FilePrefix(base: string, runId: string, first: nat, entries: seq<Entry>, all: seq<Entry>)
    requires entries <= all
    ensures FileOf(base, runId, first, entries) <= FileOf(base, runId, first, all)
    decreases |all|
  {
    hide FileOf, Print, Record;
    if entries != all {
      var last := |all| - 1;
      assert all == all[..last] + [all[last]];
      FilePrefix(base, runId, first, entries, all[..last]);
      FileGrows(base, runId, first, all[..last], all[last]);
    }
  }

  lemma TornIsPrefix(file: string, complete: string, line: string, whole: string)
    requires IsTorn(file, complete, line) && complete + line <= whole
    ensures file <= whole
  {
    var k :| 0 <= k <= |line| && file == complete + line[..k];
    assert complete + line[..k] <= complete + line;
  }

  /** The state that `run_case_and_record` is handed: the writer, the sequence and the tally. */
  class Recorder {
    const writer: Writer
    const runId: string
    const base: string
    const first: nat
    var sequence: nat
    var tally: Tally
    ghost var written: seq<Entry>

    constructor (writer: Writer, runId: string, sequence: nat, tally: Tally)
      requires writer.Valid() && writer.isOpen && writer.good && !writer.failed
      ensures this.writer == writer && this.runId == runId && this.sequence == sequence && this.tally == tally
      ensures written == [] && first == sequence && base == writer.contentBuffer
      ensures Live()
    {
      this.writer, this.runId, this.base, this.first := writer, runId, writer.contentBuffer, sequence;
      this.sequence, this.tally := sequence, tally;
      written := [];
      new;
      assert writer.contentBuffer + "" == writer.contentBuffer;
    }

    /** All that was written is in the file, and numbered without a gap. */
    ghost predicate Live()
      reads this, writer, writer.disk
    {
      && writer.Valid() && writer.isOpen && writer.good && !writer.failed
      && writer.contentBuffer == FileOf(base, runId, first, written)
      && sequence == first + |written|
    }

    /** A write has failed: the file is the planned file, cut somewhere. */
    ghost predicate Cut(all: seq<Entry>)
      reads this, writer, writer.disk
    {
      && !writer.isOpen && writer.failed
      && writer.partialPath in writer.disk.files
      && writer.disk.files[writer.partialPath] <= FileOf(base, runId, first, all)
    }

    /** `write_or_fail` on the next record. */
    method Emit(e: Entry, ghost all: seq<Entry>) returns (ok: bool)
      requires Live() && written + [e] <= all
      modifies this`sequence, this`written
      modifies writer`isOpen, writer`good, writer`contentBuffer, writer`bytesWritten, writer`failed,
        writer.disk
      ensures ok ==> Live() && written == old(written) + [e]
      ensures !ok ==> Cut(all)
      ensures OnlyPartialChanged(writer.partialPath, old(writer.disk.files), writer.disk.files)
    {
      hide FileOf, Print, Record;
      ghost var complete := writer.contentBuffer;
      sequence := sequence + 1;
      var line := Print(Record(runId, sequence, e));
      FileGrows(base, runId, first, written, e);
      FilePrefix(base, runId, first, written + [e], all);
      ok := writer.WriteLine(line);
      if ok {
        written := written + [e];
      } else {
        Regroup(complete, line, "\n");
        TornIsPrefix(writer.disk.files[writer.partialPath], complete, line + "\n", FileOf(base, runId, first, all));
        writer.Abandon();
      }
    }

    /** The progress windows of a case, each written as it closes. */
    method EmitWindows(c: Case, windows: seq<seq<Member>>, ghost all: seq<Entry>) returns (ok: bool)
      requires Live() && written + Windows(c, windows) <= all
      modifies this`sequence, this`written
      modifies writer`isOpen, writer`good, writer`contentBuffer, writer`bytesWritten, writer`failed,
        writer.disk
      ensures ok ==> Live() && written == old(written) + Windows(c, windows)
      ensures !ok ==> Cut(all)
      ensures OnlyPartialChanged(writer.partialPath, old(writer.disk.files), writer.disk.files)
    {
      hide FileOf, OfCase;
      ghost var entries := Windows(c, windows);
      for i := 0 to |windows|
        invariant Live() && written == old(written) + entries[..i]
        invariant OnlyPartialChanged(writer.partialPath, old(writer.disk.files), writer.disk.files)
      {
        OneMoreOf(old(written), entries, i, all);
        ok := Emit(OfCase("progress_window", c, windows[i]), all);
        if !ok {
          return;
        }
      }
      assert entries[..|windows|] == entries;
      ok := true;
    }

    /** The phases of a case: phase_start, phase_summary and, with stage data, stage_profile. */
    method EmitPhases(c: Case, phases: seq<PhaseRun>, ghost all: seq<Entry>) returns (ok: bool)
      requires Live() && written + Phases(c, phases) <= all
      modifies this`sequence, this`written
      modifies writer`isOpen, writer`good, writer`contentBuffer, writer`bytesWritten, writer`failed,
        writer.disk
      ensures ok ==> Live() && written == old(written) + Phases(c, phases)
      ensures !ok ==> Cut(all)
      ensures OnlyPartialChanged(writer.partialPath, old(writer.disk.files), writer.disk.files)
    {
      hide FileOf, OfCase, OnePhase;
      for i := 0 to |phases|
        invariant Live() && written == old(written) + Phases(c, phases[..i])
        invariant OnlyPartialChanged(writer.partialPath, old(writer.disk.files), writer.disk.files)
      {
        assert phases[..i + 1][..i] == phases[..i];
        Regroup(old(written), Phases(c, phases[..i]), OnePhase(c, phases[i]));
        PhasesPrefix(c, phases, i + 1);
        ok := EmitPhase(c, phases[i], all);
        if !ok {
          return;
        }
      }
      assert phases[..|phases|] == phases;
      ok := true;
    }

    method EmitPhase(c: Case, p: PhaseRun, ghost all: seq<Entry>) returns (ok: bool)
      requires Live() && written + OnePhase(c, p) <= all
      modifies this`sequence, this`written
      modifies writer`isOpen, writer`good, writer`contentBuffer, writer`bytesWritten, writer`failed,
        writer.disk
      ensures ok ==> Live() && written == old(written) + OnePhase(c, p)
      ensures !ok ==> Cut(all)
      ensures OnlyPartialChanged(writer.partialPath, old(writer.disk.files), writer.disk.files)
    {
      hide FileOf, OfCase;
      ghost var entries := OnePhase(c, p);
      var name := [Member("phase", Str(p.phase))];
      OneMoreOf(written, entries, 0, all);
      OneMoreOf(written, entries, 1, all);
      ok := Emit(OfCase("phase_start", c, name), all);
      if !ok {
        return;
      }
      ok := Emit(OfCase("phase_summary", c, name + p.summary), all);
      if !ok {
        return;
      }
      if p.stages.Some? {
        OneMoreOf(old(written), entries, 2, all);
        ok := Emit(OfCase("stage_profile", c, p.stages.value), all);
      }
    }

    /** The life of one case: skipped by the budget, or `run_case_and_record`. */
    method RunCase(c: Case, fate: Fate, ghost all: seq<Entry>) returns (ok: bool)
      requires Live() && written + CaseEntries(c, fate) <= all
      modifies this`sequence, this`written, this`tally, writer`isOpen, writer`good, writer`contentBuffer,
        writer`bytesWritten, writer`failed, writer.disk
      ensures ok ==>
        && Live() && written == old(written) + CaseEntries(c, fate)
        && tally == Count(old(tally), WrittenVerdict(c, fate))
      ensures !ok ==> Cut(all)
      ensures OnlyPartialChanged(writer.partialPath, old(writer.disk.files), writer.disk.files)
    {
      hide FileOf, CaseStart, SkippedEntry, CaseError, Windows, Phases, CaseSummary, CaseEntries, VerdictEntry,
        WrittenVerdict, Count;
      LinesOf(c, fate);
      match fate {
        case Skipped(reason, estimate) =>
          tally := Count(tally, SkippedBudget);
          ok := Emit(SkippedEntry(c, reason, estimate), all);
        case Executed(run) =>
          ghost var rest := CaseEntries(c, fate)[1..];
          StartFirst(written, CaseStart(c), rest, all);
          ok := Emit(CaseStart(c), all);
          if !ok {
            return;
          }
          if !Implemented(c) {
            tally := Count(tally, Unimplemented);
            ok := Emit(CaseError(c, NotImplementedText(c.workload)), all);
          } else {
            ok := RunImplemented(c, run, all);
          }
      }
    }

    /** The case after its case_start, when its workload has a dispatch. */
    method RunImplemented(c: Case, run: CaseRun, ghost all: seq<Entry>) returns (ok: bool)
      requires Live() && Implemented(c)
      requires written + (Windows(c, run.windows) + Phases(c, run.phases) + [VerdictEntry(c, Executed(run))]) <= all
      modifies this`sequence, this`written, this`tally, writer`isOpen, writer`good, writer`contentBuffer,
        writer`bytesWritten, writer`failed, writer.disk
      ensures ok ==>
        && Live()
        && written
           == old(written) + (Windows(c, run.windows) + Phases(c, run.phases) + [VerdictEntry(c, Executed(run))])
        && tally == Count(old(tally), WrittenVerdict(c, Executed(run)))
      ensures !ok ==> Cut(all)
      ensures OnlyPartialChanged(writer.partialPath, old(writer.disk.files), writer.disk.files)
    {
      hide FileOf, Windows, Phases, CaseError, CaseSummary, Count;
      ghost var windows, phases := Windows(c, run.windows), Phases(c, run.phases);
      ghost var verdict := [VerdictEntry(c, Executed(run))];
      ThreeParts(written, windows, phases, verdict, all);
      ok := EmitWindows(c, run.windows, all);
      if !ok {
        return;
      }
      if run.status == "unimplemented" {
        tally := Count(tally, Unimplemented);
      } else if !run.ok {
        tally := Count(tally, Failed);
      } else {
        tally := Count(tally, Completed);
      }
      ok := EmitPhases(c, run.phases, all);
      if !ok {
        return;
      }
      if !run.ok {
        ok := Emit(CaseError(c, run.error), all);
      } else {
        ok := Emit(CaseSummary(c, run.status, run.details), all);
      }
    }

    /** The loop over the plan. */
    method RunCases(cases: seq<Case>, fates: seq<Fate>, ghost all: seq<Entry>) returns (ok: bool)
      requires |cases| == |fates|
      requires Live() && written + CasesEntries(cases, fates, |cases|) <= all
      modifies this`sequence, this`written, this`tally, writer`isOpen, writer`good, writer`contentBuffer,
        writer`bytesWritten, writer`failed, writer.disk
      ensures ok ==>
        && Live() && written == old(written) + CasesEntries(cases, fates, |cases|)
        && tally == CountAll(old(tally), cases, fates, |cases|)
      ensures !ok ==> Cut(all)
      ensures OnlyPartialChanged(writer.partialPath, old(writer.disk.files), writer.disk.files)
    {
      hide FileOf, CaseEntries, Count, WrittenVerdict;
      for i := 0 to |cases|
        invariant Live() && written == old(written) + CasesEntries(cases, fates, i)
        invariant tally == CountAll(old(tally), cases, fates, i)
        invariant OnlyPartialChanged(writer.partialPath, old(writer.disk.files), writer.disk.files)
      {
        Regroup(old(written), CasesEntries(cases, fates, i), CaseEntries(cases[i], fates[i]));
        CasesPrefix(cases, fates, i + 1, |cases|);
        ok := RunCase(cases[i], fates[i], all);
        if !ok {
          return;
        }
      }
      ok := true;
    }

    /** run_end, with the hash of all bytes before it. */
    method End(ghost all: seq<Entry>) returns (ok: bool)
      requires Live() && |writer.contentBuffer| < TWO_TO_61
      requires written + [RunEnd(tally, ContentHash(writer.contentBuffer))] <= all
      modifies this`sequence, this`written
      modifies writer`isOpen, writer`good, writer`contentBuffer, writer`bytesWritten, writer`failed,
        writer.disk
      ensures ok ==> Live() && written == old(written) + [RunEnd(tally, ContentHash(old(writer.contentBuffer)))]
      ensures !ok ==> Cut(all)
      ensures OnlyPartialChanged(writer.partialPath, old(writer.disk.files), writer.disk.files)
    {
      hide FileOf, RunEnd, ContentHash;
      var hash := writer.ContentSha256Hex();
      ok := Emit(RunEnd(tally, hash), all);
    }
  }

  ghost predicate OnlyPartialChanged(partial: string, before: map<string, string>, after: map<string, string>) {
    forall p :: p != partial ==>
      (p in after <==> p in before) && (p in before ==> after[p] == before[p])
  }

  lemma OneMoreOf(before: seq<Entry>, entries: seq<Entry>, i: nat, all: seq<Entry>)
    requires before + entries <= all && i < |entries|
    ensures before + entries[..i] + [entries[i]] == before + entries[..i + 1] <= all
  {
  }

  lemma {:induction false} PhasesPrefix(c: Case, phases: seq<PhaseRun>, n: nat)
    requires n <= |phases|
    ensures Phases(c, phases[..n]) <= Phases(c, phases)
  {
    hide OnePhase;
    if n == |phases| {
      assert phases[..n] == phases;
    } else {
      PhasesPrefix(c, phases[..|phases| - 1], n);
      assert phases[..|phases| - 1][..n] == phases[..n];
    }
  }

  /** The lines of a case, in the three ways it can go. */
  lemma LinesOf(c: Case, fate: Fate)
    ensures fate.Skipped? ==>
      && CaseEntries(c, fate) == [SkippedEntry(c, fate.reason, fate.estimate)]
      && WrittenVerdict(c, fate) == SkippedBudget
    ensures fate.Executed? ==>
      && CaseEntries(c, fate) == [CaseStart(c)] + CaseEntries(c, fate)[1..]
      && CaseEntries(c, fate)[1..] == if !Implemented(c) then [CaseError(c, NotImplementedText(c.workload))]
         else Windows(c, fate.run.windows) + Phases(c, fate.run.phases) + [VerdictEntry(c, fate)]
    ensures fate.Executed? && !Implemented(c) ==> WrittenVerdict(c, fate) == Unimplemented
  {
    hide CaseStart, CaseError, Windows, Phases, SkippedEntry;
    if fate.Executed? && Implemented(c) {
      Regroup([CaseStart(c)], Windows(c, fate.run.windows) + Phases(c, fate.run.phases), [VerdictEntry(c, fate)]);
    }
  }

  lemma StartFirst(before: seq<Entry>, start: Entry, rest: seq<Entry>, all: seq<Entry>)
    requires before + ([start] + rest) <= all
    ensures before + [start] <= all && before + [start] + rest == before + ([start] + rest) <= all
  {
    Regroup(before, [start], rest);
  }

  lemma ThreeParts(before: seq<Entry>, a: seq<Entry>, b: seq<Entry>, c: seq<Entry>, all: seq<Entry>)
    requires before + (a + b + c) <= all
    ensures before + a <= all && before + a + b <= all && before + a + b + c <= all
    ensures before + a + b + c == before + (a + b + c)
  {
    assert before + a + b + c == before + (a + b + c);
  }

  function CountAll(t: Tally, cases: seq<Case>, fates: seq<Fate>, n: nat): Tally
    requires |cases| == |fates| && n <= |cases|
  {
    if n == 0 then t else Count(CountAll(t, cases, fates, n - 1), WrittenVerdict(cases[n - 1], fates[n - 1]))
  }

  lemma {:induction false} CasesPrefix(cases: seq<Case>, fates: seq<Fate>, m: nat, n: nat)
    requires |cases| == |fates| && m <= n <= |cases|
    ensures CasesEntries(cases, fates, m) <= CasesEntries(cases, fates, n)
  {
    hide CaseEntries;
    if m < n {
      CasesPrefix(cases, fates, m, n - 1);
    }
  }

  // ----- run_campaign -----

  function LogText(g: Campaign): string
    requires WellFormed(g)
  {
    TextOf(Numbered(g.runId, 1, Body(g)))
  }

  /** All lines of the file: run_end holds the hash of the bytes before it. */
  function WholeLog(g: Campaign): seq<Entry>
    requires WellFormed(g)
  {
    Body(g) + [RunEnd(CasesTally(g.cases, g.fates, |g.cases|), ContentHash(LogText(g)))]
  }

  lemma {:induction false} CountAllFromNothing(cases: seq<Case>, fates: seq<Fate>, n: nat)
    requires |cases| == |fates| && n <= |cases|
    ensures CountAll(Tally(0, 0, 0, 0), cases, fates, n) == CasesTally(cases, fates, n)
  {
    hide Count, WrittenVerdict;
    if n > 0 {
      CountAllFromNothing(cases, fates, n - 1);
    }
  }

  lemma FileFromNothing(runId: string, entries: seq<Entry>)
    ensures FileOf("", runId, 0, entries) == TextOf(Numbered(runId, 1, entries))
  {
    hide TextOf;
    assert "" + TextOf(Numbered(runId, 1, entries)) == TextOf(Numbered(runId, 1, entries));
  }

  /** The final name appears only when the file holds the whole log. Whenever the campaign stops
      before, what is left under the partial name is the log, cut somewhere. */
  method RunCampaign(writer: Writer, path: string, g: Campaign) returns (status: Option<string>)
    requires WellFormed(g) && !writer.isOpen && !writer.failed && |LogText(g)| < TWO_TO_61
    modifies writer, writer.disk
    ensures status.None? <==> path in old(writer.disk.files) || writer.failed
    ensures status.Some? ==>
      && path !in old(writer.disk.files)
      && status.value == OverallStatus(CasesTally(g.cases, g.fates, |g.cases|))
      && path in writer.disk.files && path + ".partial" !in writer.disk.files
      && writer.disk.files[path] == TextOf(Numbered(g.runId, 1, WholeLog(g)))
    ensures status.None? ==>
      && (path in writer.disk.files <==> path in old(writer.disk.files))
      && (path in old(writer.disk.files) ==> writer.disk.files == old(writer.disk.files))
      && (path !in writer.disk.files && path + ".partial" in writer.disk.files ==>
            writer.disk.files[path + ".partial"] <= TextOf(Numbered(g.runId, 1, WholeLog(g))))
  {
    hide OverallStatus, FileOf, Body, ContentHash, CasesTally, LogText, WholeLog;
    status := None;
    var ok := writer.Open(path);
    if !ok {
      return;
    }
    ghost var all := WholeLog(g);
    FileFromNothing(g.runId, all);
    var recorder := new Recorder(writer, g.runId, 0, Tally(0, 0, 0, 0));
    ok := WriteLog(recorder, g);
    if ok {
      ok := writer.Finish();
    }
    if ok {
      status := Some(OverallStatus(recorder.tally));
    }
  }

  /** Every line of the campaign, from run_start to run_end. */
  method WriteLog(recorder: Recorder, g: Campaign) returns (ok: bool)
    requires WellFormed(g) && |LogText(g)| < TWO_TO_61 && recorder.runId == g.runId
    requires recorder.Live() && recorder.written == [] && recorder.tally == Tally(0, 0, 0, 0)
    requires recorder.base == "" && recorder.first == 0
    modifies recorder`sequence, recorder`written, recorder`tally
    modifies recorder.writer`isOpen, recorder.writer`good, recorder.writer`contentBuffer
    modifies recorder.writer`bytesWritten, recorder.writer`failed
    modifies recorder.writer.disk
    ensures ok ==>
      && recorder.Live() && recorder.written == WholeLog(g)
      && recorder.tally == CasesTally(g.cases, g.fates, |g.cases|)
    ensures !ok ==> recorder.Cut(WholeLog(g))
    ensures OnlyPartialChanged(recorder.writer.partialPath, old(recorder.writer.disk.files), recorder.writer.disk.files)
  {
    hide FileOf, RunStart, CasePlan, CasesEntries, ContentHash, CasesTally, LogText, RunEnd;
    ghost var all := WholeLog(g);
    LogParts(g);
    ok := recorder.Emit(RunStart(g.stamp, g.profile, g.seed, g.command), all);
    if !ok {
      return;
    }
    ok := recorder.Emit(Entry("environment", g.environment), all);
    if !ok {
      return;
    }
    ok := recorder.Emit(CasePlan(g.cases), all);
    if !ok {
      return;
    }
    assert recorder.written == Opening(g);
    ok := recorder.RunCases(g.cases, g.fates, all);
    if !ok {
      return;
    }
    CountAllFromNothing(g.cases, g.fates, |g.cases|);
    FileIsLogText(g);
    ok := recorder.End(all);
  }

  lemma FileIsLogText(g: Campaign)
    requires WellFormed(g)
    ensures FileOf("", g.runId, 0, Body(g)) == LogText(g)
  {
    hide Body, FileOf;
    FileFromNothing(g.runId, Body(g));
  }

  lemma LogParts(g: Campaign)
    requires WellFormed(g)
    ensures var all := WholeLog(g);
      && [] + [Opening(g)[0]] <= all
      && [Opening(g)[0]] + [Opening(g)[1]] <= all
      && [Opening(g)[0]] + [Opening(g)[1]] + [Opening(g)[2]] == Opening(g) <= all
      && Body(g) == Opening(g) + CasesEntries(g.cases, g.fates, |g.cases|) <= all
  {
    hide CasesEntries, RunEnd, RunStart, CasePlan, LogText, ContentHash, CasesTally;
  }
}
