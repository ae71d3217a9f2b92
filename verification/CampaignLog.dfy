/** The records of a load campaign (loadtests/campaign.cpp), in the order in which `run_campaign`
    writes them. What a case does is an input: whether the budget skips it, the windows and phases
    it reports, and its result. */
module CampaignLog {
  import opened Json
  import opened JsonRoundTrip
  import opened Text
  import opened CaseId

  const IMPLEMENTED_WORKLOADS: seq<string> := [
    "create_only", "create_delete_forward", "create_delete_reverse", "create_delete_interleaved", "crud_full",
    "read_hotspot", "range_scan_sweep", "mixed_oltp", "snapshot_hold", "blob_lifecycle", "cascade_delete",
    "oversubscribed_churn", "restart_recovery"]

  /** The kind of a record and its fields after the sequence number. */
  datatype Entry = Entry(kind: string, fields: seq<Member>)

  datatype PhaseRun = PhaseRun(phase: string, summary: seq<Member>, stages: Option<seq<Member>>)

  /** What a workload returns (`CaseRunResult`): details stands for the rest of the summary. */
  datatype CaseRun = CaseRun(windows: seq<seq<Member>>, phases: seq<PhaseRun>, status: string, ok: bool,
                             error: string, details: seq<Member>)

  datatype Fate = Skipped(reason: string, estimate: seq<Member>) | Executed(run: CaseRun)

  datatype Tally = Tally(completed: nat, failed: nat, unimplemented: nat, skippedBudget: nat)

  datatype Verdict = Completed | Failed | Unimplemented | SkippedBudget

  function Count(t: Tally, v: Verdict): Tally {
    match v
    case Completed => t.(completed := t.completed + 1)
    case Failed => t.(failed := t.failed + 1)
    case Unimplemented => t.(unimplemented := t.unimplemented + 1)
    case SkippedBudget => t.(skippedBudget := t.skippedBudget + 1)
  }

  function Sum(t: Tally): nat {
    t.completed + t.failed + t.unimplemented + t.skippedBudget
  }

  function OverallStatus(t: Tally): string {
    if t.failed > 0 then "failed"
    else if t.unimplemented > 0 || t.skippedBudget > 0 then "partial"
    else "completed"
  }

  // ----- one record -----

  function Uint(n: nat): Json {
    Number(Decimal(n))
  }

  function Header(kind: string, runId: string, sequence: nat): seq<Member> {
    [Member("schema", Str("modb.loadtest")), Member("schema_version", Number("1")), Member("record", Str(kind)),
     Member("run_id", Str(runId)), Member("sequence", Uint(sequence))]
  }

  function Record(runId: string, sequence: nat, e: Entry): Json {
    Obj(Header(e.kind, runId, sequence) + e.fields)
  }

  // ----- the entries -----

  function RunStart(stamp: string, profile: string, seed: nat, command: string): Entry {
    Entry("run_start", [Member("started_at", Str(stamp)), Member("profile", Str(profile)),
                        Member("seed", Str(Decimal(seed))), Member("command", Str(command))])
  }

  function Ids(cases: seq<Case>): (ids: seq<string>)
    ensures |ids| == |cases| && forall i :: 0 <= i < |cases| ==> ids[i] == IdOf(cases[i])
  {
    seq(|cases|, i requires 0 <= i < |cases| => IdOf(cases[i]))
  }

  function Texts(ids: seq<string>): (items: seq<Json>)
    ensures |items| == |ids| && forall i :: 0 <= i < |ids| ==> items[i] == Str(ids[i])
  {
    seq(|ids|, i requires 0 <= i < |ids| => Str(ids[i]))
  }

  function CasePlan(cases: seq<Case>): Entry {
    Entry("case_plan", [Member("case_count", Uint(|cases|)), Member("cases", Arr(Texts(Ids(cases))))])
  }

  function PlaceParams(c: Case): seq<Member> {
    [Member("workload", Str(c.workload)), Member("target", Str(c.target)), Member("scale", Str(c.scale)),
     Member("objects", Uint(c.objects)), Member("environment", Str(c.environment))]
  }

  function LoadParams(c: Case): seq<Member> {
    [Member("payload", Str(c.payload)), Member("batch", Uint(c.batch)), Member("concurrency", Uint(c.concurrency)),
     Member("readers", Uint(c.readers)), Member("durability", Str(c.durability))]
  }

  function StoreParams(c: Case): seq<Member> {
    [Member("cache", Str(c.cache)), Member("primary_storage", Str(c.primaryStorage)),
     Member("checkpoint_interval", Uint(c.checkpointInterval)), Member("repeat_index", Uint(c.repeatIndex)),
     Member("explicit_variant", Str(c.explicitVariant))]
  }

  /** `case_params_json`: reads_per_write is not among them. */
  function CaseParams(c: Case): seq<Member> {
    PlaceParams(c) + (LoadParams(c) + StoreParams(c))
  }

  function OfCase(kind: string, c: Case, fields: seq<Member>): Entry {
    Entry(kind, [Member("case_id", Str(IdOf(c)))] + fields)
  }

  function CaseStart(c: Case): Entry {
    OfCase("case_start", c, CaseParams(c))
  }

  function CaseError(c: Case, error: string): Entry {
    OfCase("case_error", c, [Member("error", Str(error))])
  }

  function CaseSummary(c: Case, status: string, details: seq<Member>): Entry {
    OfCase("case_summary", c, [Member("status", Str(status))] + details)
  }

  function SkippedEntry(c: Case, reason: string, estimate: seq<Member>): Entry {
    OfCase("skipped_budget", c, [Member("reason", Str(reason))] + estimate)
  }

  function Windows(c: Case, windows: seq<seq<Member>>): (entries: seq<Entry>)
    ensures |entries| == |windows| && forall i :: 0 <= i < |entries| ==> entries[i].kind == "progress_window"
  {
    seq(|windows|, i requires 0 <= i < |windows| => OfCase("progress_window", c, windows[i]))
  }

  function OnePhase(c: Case, p: PhaseRun): seq<Entry> {
    var name := [Member("phase", Str(p.phase))];
    [OfCase("phase_start", c, name), OfCase("phase_summary", c, name + p.summary)]
    + if p.stages.Some? then [OfCase("stage_profile", c, p.stages.value)] else []
  }

  function Phases(c: Case, phases: seq<PhaseRun>): seq<Entry> {
    if phases == [] then [] else Phases(c, phases[..|phases| - 1]) + OnePhase(c, phases[|phases| - 1])
  }

  const NOT_IMPLEMENTED := "ainda n\U{c3}\U{a3}o implementado"

  function NotImplementedText(workload: string): string {
    "workload '" + workload + "' " + NOT_IMPLEMENTED
    + " nesta vers\U{c3}\U{a3}o do modb_load (ver docs/PLANO_TESTES_DE_CARGA.md \U{c2}\U{a7}15)"
  }

  predicate Implemented(c: Case) {
    c.workload in IMPLEMENTED_WORKLOADS
  }

  /** The line that settles a case. */
  function VerdictEntry(c: Case, fate: Fate): Entry {
    match fate
    case Skipped(reason, estimate) => SkippedEntry(c, reason, estimate)
    case Executed(run) =>
      if !Implemented(c) then CaseError(c, NotImplementedText(c.workload))
      else if !run.ok then CaseError(c, run.error)
      else CaseSummary(c, run.status, run.details)
  }

  /** The lines of a case before its verdict. */
  function BeforeVerdict(c: Case, fate: Fate): seq<Entry> {
    if fate.Skipped? then []
    else if !Implemented(c) then [CaseStart(c)]
    else [CaseStart(c)] + (Windows(c, fate.run.windows) + Phases(c, fate.run.phases))
  }

  function CaseEntries(c: Case, fate: Fate): (entries: seq<Entry>)
    ensures |entries| > 0
  {
    BeforeVerdict(c, fate) + [VerdictEntry(c, fate)]
  }

  lemma {:induction false} PhaseKinds(c: Case, phases: seq<PhaseRun>)
    ensures forall i :: 0 <= i < |Phases(c, phases)| ==>
      Phases(c, phases)[i].kind in {"phase_start", "phase_summary", "stage_profile"}
  {
    if phases != [] {
      PhaseKinds(c, phases[..|phases| - 1]);
    }
  }

  /** A case that is run opens with case_start, then come its windows, one line each and in the
      order in which they closed, then the lines of its phases, and its verdict is last. */
  lemma LinesOfCase(c: Case, run: CaseRun)
    requires Implemented(c)
    ensures var lines, w := CaseEntries(c, Executed(run)), |run.windows|;
      && |lines| >= w + 2 && lines[0].kind == "case_start"
      && (forall i :: 0 <= i < w ==> lines[1 + i] == OfCase("progress_window", c, run.windows[i]))
      && (forall i :: w < i < |lines| - 1 ==> lines[i].kind in {"phase_start", "phase_summary", "stage_profile"})
      && lines[|lines| - 1].kind == if run.ok then "case_summary" else "case_error"
  {
    hide Implemented, CaseParams, IdOf;
    PhaseKinds(c, run.phases);
  }

  /** How the writer counts a case. */
  function WrittenVerdict(c: Case, fate: Fate): Verdict {
    match fate
    case Skipped(_, _) => SkippedBudget
    case Executed(run) =>
      if !Implemented(c) || run.status == "unimplemented" then Unimplemented
      else if !run.ok then Failed
      else Completed
  }

  // ----- the log -----

  /** The lines of the first n cases. */
  function CasesEntries(cases: seq<Case>, fates: seq<Fate>, n: nat): seq<Entry>
    requires |cases| == |fates| && n <= |cases|
  {
    if n == 0 then [] else CasesEntries(cases, fates, n - 1) + CaseEntries(cases[n - 1], fates[n - 1])
  }

  function CasesTally(cases: seq<Case>, fates: seq<Fate>, n: nat): Tally
    requires |cases| == |fates| && n <= |cases|
  {
    if n == 0 then Tally(0, 0, 0, 0)
    else Count(CasesTally(cases, fates, n - 1), WrittenVerdict(cases[n - 1], fates[n - 1]))
  }

  lemma CountAddsOne(t: Tally, v: Verdict)
    ensures Sum(Count(t, v)) == Sum(t) + 1
  {
  }

  lemma {:induction false} TallyCountsEveryCase(cases: seq<Case>, fates: seq<Fate>, n: nat)
    requires |cases| == |fates| && n <= |cases|
    ensures Sum(CasesTally(cases, fates, n)) == n
  {
    if n > 0 {
      TallyCountsEveryCase(cases, fates, n - 1);
      CountAddsOne(CasesTally(cases, fates, n - 1), WrittenVerdict(cases[n - 1], fates[n - 1]));
    }
  }

  /** Each entry with the next sequence number. */
  function Numbered(runId: string, first: nat, entries: seq<Entry>): (records: seq<Json>)
    ensures |records| == |entries|
    ensures forall i :: 0 <= i < |entries| ==> records[i] == Record(runId, first + i, entries[i])
  {
    seq(|entries|, i requires 0 <= i < |entries| => Record(runId, first + i, entries[i]))
  }

  function RunEnd(t: Tally, hash: string): Entry {
    Entry("run_end", [Member("status", Str(OverallStatus(t))), Member("completed", Uint(t.completed)),
                      Member("failed", Uint(t.failed)), Member("unimplemented", Uint(t.unimplemented)),
                      Member("skipped_budget", Uint(t.skippedBudget)),
                      Member("previous_content_sha256", Str(hash))])
  }

  /** What a campaign is given: the plan, and what will happen to each case. */
  datatype Campaign = Campaign(runId: string, stamp: string, profile: string, seed: nat, command: string,
                               environment: seq<Member>, cases: seq<Case>, fates: seq<Fate>)

  predicate WellFormed(g: Campaign) {
    |g.cases| == |g.fates|
  }

  function Opening(g: Campaign): (entries: seq<Entry>)
    ensures |entries| == 3
  {
    [RunStart(g.stamp, g.profile, g.seed, g.command), Entry("environment", g.environment), CasePlan(g.cases)]
  }

  /** All entries but run_end. */
  function Body(g: Campaign): seq<Entry>
    requires WellFormed(g)
  {
    Opening(g) + CasesEntries(g.cases, g.fates, |g.cases|)
  }

  // ----- as text -----

  function TextOf(records: seq<Json>): string {
    if records == [] then "" else TextOf(records[..|records| - 1]) + (Print(records[|records| - 1]) + "\n")
  }

  lemma TextOfOneMore(records: seq<Json>, r: Json)
    ensures TextOf(records + [r]) == TextOf(records) + Print(r) + "\n"
  {
    assert (records + [r])[..|records|] == records;
    Regroup(TextOf(records), Print(r), "\n");
  }

  predicate AllPrintable(members: seq<Member>) {
    forall i :: 0 <= i < |members| ==> Printable(members[i].value)
  }

  /** Every number that the writer is given prints as a number token. */
  predicate PrintableEntry(e: Entry) {
    AllPrintable(e.fields)
  }

  predicate PrintableEntries(entries: seq<Entry>) {
    forall i :: 0 <= i < |entries| ==> PrintableEntry(entries[i])
  }

  predicate PrintableRun(run: CaseRun) {
    && (forall i :: 0 <= i < |run.windows| ==> AllPrintable(run.windows[i]))
    && (forall i :: 0 <= i < |run.phases| ==> PrintablePhase(run.phases[i]))
    && AllPrintable(run.details)
  }

  predicate PrintablePhase(p: PhaseRun) {
    AllPrintable(p.summary) && (p.stages.Some? ==> AllPrintable(p.stages.value))
  }

  predicate PrintableFate(fate: Fate) {
    match fate
    case Skipped(_, estimate) => AllPrintable(estimate)
    case Executed(run) => PrintableRun(run)
  }

  predicate PrintableCampaign(g: Campaign) {
    AllPrintable(g.environment) && forall i :: 0 <= i < |g.fates| ==> PrintableFate(g.fates[i])
  }
}
