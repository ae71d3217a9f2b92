/** What `run_case_and_record` gets back from a workload (loadtests/campaign.cpp and the wrappers in
    loadtests/workloads): the wrapper refuses a target it has no dispatch for, and otherwise hands
    on what the target returned. The scan of the log then counts every case as the writer did,
    unless a failed run reports one of the phrases of a refusal. */
module CampaignWorkloads {
  import opened Json
  import opened Text
  import opened CaseId
  import opened CampaignLog
  import opened CampaignScan
  import opened CampaignResume

  /** What a target returns: it completes, or it fails with an error text. */
  datatype TargetRun =
    | Done(windows: seq<seq<Member>>, phases: seq<PhaseRun>, details: seq<Member>)
    | Broke(windows: seq<seq<Member>>, phases: seq<PhaseRun>, error: string, details: seq<Member>)

  function FromTarget(t: TargetRun): CaseRun {
    match t
    case Done(windows, phases, details) => CaseRun(windows, phases, "completed", true, "", details)
    case Broke(windows, phases, error, details) => CaseRun(windows, phases, "failed", false, error, details)
  }

  function Refused(error: string): CaseRun {
    CaseRun([], [], "unimplemented", false, error, [])
  }

  const NO_DISPATCH := "ainda n\U{c3}\U{a3}o tem dispatch implementado"
  const NO_TARGET := "ainda n\U{c3}\U{a3}o tem target implementado"

  function NoTargetText(workload: string, target: string, targets: string): string {
    workload + ": alvo '" + target + "' " + NO_TARGET + targets
  }

  const NO_REMOTE_TAIL := " -- exige um servidor j\U{c3}\U{a1} rodando num host remoto (Subfase I, "
    + "docs-process/PLANO_IMPLEMENTACAO_CARGA.md)"

  /** Whether the wrapper of the workload calls the target. */
  predicate HasTarget(workload: string, target: string) {
    if workload == "create_only" then
      target == "embedded" || target == "loopback" || target == "remote_colocated" || target == "loopback_proxy"
    else
      workload in IMPLEMENTED_WORKLOADS && target == "embedded"
  }

  /** The wrapper of create_only: four targets, one refusal of its own, and the general one. */
  function RunCreateOnly(target: string, t: TargetRun): CaseRun {
    if target == "embedded" then FromTarget(t)
    else if target == "loopback" || target == "remote_colocated" then FromTarget(t)
    else if target == "loopback_proxy" then FromTarget(t)
    else if target == "remote_client_local" then
      Refused("create_only: alvo 'remote_client_local' " + NO_DISPATCH + NO_REMOTE_TAIL)
    else Refused(NoTargetText("create_only", target, " (embedded, loopback, loopback_proxy, remote_colocated)"))
  }

  /** The twelve other wrappers: only the embedded target. */
  function RunEmbeddedOnly(workload: string, target: string, t: TargetRun): CaseRun {
    if target != "embedded" then Refused(NoTargetText(workload, target, " (s\U{c3}\U{b3} 'embedded' nesta subfase)"))
    else FromTarget(t)
  }

  /** The dispatch by workload. Its last branch is never reached: a workload that is not implemented
      has been refused before. */
  function RunWorkload(c: Case, t: TargetRun): CaseRun {
    if c.workload == "create_only" then RunCreateOnly(c.target, t)
    else if c.workload in IMPLEMENTED_WORKLOADS then RunEmbeddedOnly(c.workload, c.target, t)
    else Refused("dispatch ausente para workload '" + c.workload + "'")
  }

  lemma HoldsPart(head: string, part: string, tail: string)
    ensures Contains(head + part + tail, part)
  {
    assert At(head + part + tail, |head|, part);
  }

  lemma NoTargetIsRecognised(workload: string, target: string, targets: string)
    ensures IsUnimplementedText(NoTargetText(workload, target, targets))
  {
    HoldsPart(workload + ": alvo '" + target + "' ", NO_TARGET, targets);
  }

  lemma NoRemoteIsRecognised()
    ensures IsUnimplementedText("create_only: alvo 'remote_client_local' " + NO_DISPATCH + NO_REMOTE_TAIL)
  {
    HoldsPart("create_only: alvo 'remote_client_local' ", NO_DISPATCH, NO_REMOTE_TAIL);
  }

  /** No failed run reports a phrase by which the scan knows a refusal. */
  predicate PlainFailure(c: Case, t: TargetRun) {
    HasTarget(c.workload, c.target) && t.Broke? ==> !IsUnimplementedText(t.error)
  }

  /** Every refusal is recognised as one, and every completed run says so: what is left is what a
      failed run reports. */
  lemma WorkloadIsConsistentExactly(c: Case, t: TargetRun)
    requires Implemented(c)
    ensures Consistent(c, Executed(RunWorkload(c, t))) <==> PlainFailure(c, t)
  {
    hide IsUnimplementedText;
    NoRemoteIsRecognised();
    NoTargetIsRecognised("create_only", c.target, " (embedded, loopback, loopback_proxy, remote_colocated)");
    NoTargetIsRecognised(c.workload, c.target, " (s\U{c3}\U{b3} 'embedded' nesta subfase)");
  }

  /** Every executed case of the campaign was run by its workload on a target that returned this. */
  predicate RunByWorkloads(g: Campaign, ts: seq<TargetRun>)
    requires WellFormed(g)
  {
    && |ts| == |g.cases|
    && forall p :: 0 <= p < |ts| && g.fates[p].Executed? && Implemented(g.cases[p]) ==>
         g.fates[p].run == RunWorkload(g.cases[p], ts[p])
  }

  predicate PlainFailures(g: Campaign, ts: seq<TargetRun>)
    requires WellFormed(g) && |ts| == |g.cases|
  {
    forall p :: 0 <= p < |ts| && g.fates[p].Executed? && Implemented(g.cases[p]) ==> PlainFailure(g.cases[p], ts[p])
  }

  lemma ConsistentCampaignExactly(g: Campaign, ts: seq<TargetRun>)
    requires WellFormed(g) && RunByWorkloads(g, ts)
    ensures ConsistentUpTo(g, |g.cases|) <==> PlainFailures(g, ts)
  {
    hide IsUnimplementedText, PlainFailure, RunWorkload;
    forall p | 0 <= p < |ts| && g.fates[p].Executed? && Implemented(g.cases[p])
      ensures Consistent(g.cases[p], g.fates[p]) <==> PlainFailure(g.cases[p], ts[p])
    {
      WorkloadIsConsistentExactly(g.cases[p], ts[p]);
      assert g.fates[p] == Executed(RunWorkload(g.cases[p], ts[p]));
    }
  }

  /** For the log of a campaign as the code runs it, cut at any line end, the scan ends with the
      writer's four counters: exactly when no failed run reports a phrase of a refusal. */
  lemma CampaignCountsAgreeExactly(g: Campaign, ts: seq<TargetRun>)
    requires WellFormed(g) && RunByWorkloads(g, ts) && |Body(g)| < TWO_TO_53
    ensures (forall k :: 3 <= k <= |Body(g)| ==> CountsAgree(g, k)) <==> PlainFailures(g, ts)
  {
    hide CountsAgree, Body, ConsistentUpTo, PlainFailures, RunByWorkloads;
    CountsAgreeExactly(g);
    ConsistentCampaignExactly(g, ts);
  }
}
