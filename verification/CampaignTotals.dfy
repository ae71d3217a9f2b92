/** What the last line of a campaign says (loadtests/campaign.cpp): its status and its four totals,
    as a reader finds them in run_end, against the verdicts of the single cases. */
module CampaignTotals {
  import opened Json
  import opened Text
  import opened CampaignLog
  import opened CampaignScan
  import opened CampaignResume

  /** The positions among the first n with this verdict. */
  function Those(g: Campaign, n: nat, v: Verdict): set<nat>
    requires WellFormed(g) && n <= |g.cases|
  {
    set p: nat | p < n && WrittenVerdict(g.cases[p], g.fates[p]) == v
  }

  function TotalOf(t: Tally, v: Verdict): nat {
    match v
    case Completed => t.completed
    case Failed => t.failed
    case Unimplemented => t.unimplemented
    case SkippedBudget => t.skippedBudget
  }

  lemma CountChangesOne(t: Tally, v: Verdict, w: Verdict)
    ensures TotalOf(Count(t, v), w) == TotalOf(t, w) + if v == w then 1 else 0
  {
  }

  lemma ThoseGrow(g: Campaign, n: nat, v: Verdict)
    requires WellFormed(g) && n < |g.cases|
    ensures Those(g, n + 1, v)
         == Those(g, n, v) + if WrittenVerdict(g.cases[n], g.fates[n]) == v then {n} else {}
    ensures n !in Those(g, n, v)
  {
    hide WrittenVerdict;
  }

  /** Each counter is the number of cases with that verdict. */
  lemma {:induction false} TotalsAre(g: Campaign, n: nat, v: Verdict)
    requires WellFormed(g) && n <= |g.cases|
    ensures TotalOf(CasesTally(g.cases, g.fates, n), v) == |Those(g, n, v)|
  {
    hide WrittenVerdict, Count, TotalOf;
    if n == 0 {
      NothingCounted(v);
      assert Those(g, 0, v) == {};
    } else {
      TotalsAre(g, n - 1, v);
      CountChangesOne(CasesTally(g.cases, g.fates, n - 1), WrittenVerdict(g.cases[n - 1], g.fates[n - 1]), v);
      ThoseGrow(g, n - 1, v);
    }
  }

  lemma NothingCounted(v: Verdict)
    ensures TotalOf(Tally(0, 0, 0, 0), v) == 0
  {
  }

  lemma SomeOfThose(g: Campaign, v: Verdict)
    requires WellFormed(g)
    ensures TotalOf(CasesTally(g.cases, g.fates, |g.cases|), v) > 0
       <==> exists p: nat :: p < |g.cases| && WrittenVerdict(g.cases[p], g.fates[p]) == v
  {
    hide WrittenVerdict, CasesTally, TotalOf;
    TotalsAre(g, |g.cases|, v);
    var those := Those(g, |g.cases|, v);
    if those != {} {
      var p :| p in those;
    }
    if exists p: nat :: p < |g.cases| && WrittenVerdict(g.cases[p], g.fates[p]) == v {
      var p: nat :| p < |g.cases| && WrittenVerdict(g.cases[p], g.fates[p]) == v;
      assert p in those;
    }
  }

  /** A campaign ends as failed exactly when some case failed, as completed exactly when all
      completed, and as partial otherwise. */
  lemma StatusExactly(g: Campaign)
    requires WellFormed(g)
    ensures var status := OverallStatus(CasesTally(g.cases, g.fates, |g.cases|));
      && (status == "failed"
          <==> exists p: nat :: p < |g.cases| && WrittenVerdict(g.cases[p], g.fates[p]) == Failed)
      && (status == "completed"
          <==> forall p: nat :: p < |g.cases| ==> WrittenVerdict(g.cases[p], g.fates[p]) == Completed)
      && status in {"failed", "completed", "partial"}
  {
    hide WrittenVerdict, CasesTally;
    SomeOfThose(g, Failed);
    SomeOfThose(g, Unimplemented);
    SomeOfThose(g, SkippedBudget);
  }

  lemma FindSix(m0: Member, m1: Member, m2: Member, m3: Member, m4: Member, m5: Member, key: string)
    ensures FindMember([m0, m1, m2, m3, m4, m5], key)
         == if m0.key == key then Some(m0.value)
            else if m1.key == key then Some(m1.value)
            else if m2.key == key then Some(m2.value)
            else if m3.key == key then Some(m3.value)
            else if m4.key == key then Some(m4.value)
            else if m5.key == key then Some(m5.value)
            else None
  {
    hide FindMember;
    var f5, f4, f3, f2, f1 := [m5], [m4, m5], [m3, m4, m5], [m2, m3, m4, m5], [m1, m2, m3, m4, m5];
    assert f5 == [m5] + [] && f4 == [m4] + f5 && f3 == [m3] + f4 && f2 == [m2] + f3 && f1 == [m1] + f2;
    assert [m0, m1, m2, m3, m4, m5] == [m0] + f1;
    FindNext(m0, f1, key);
    FindNext(m1, f2, key);
    FindNext(m2, f3, key);
    FindNext(m3, f4, key);
    FindNext(m4, f5, key);
    FindNext(m5, [], key);
    NothingToFind(key);
  }

  lemma NothingToFind(key: string)
    ensures FindMember([], key) == None
  {
  }

  /** The name under which run_end gives a total. */
  function KeyOf(v: Verdict): string {
    match v
    case Completed => "completed"
    case Failed => "failed"
    case Unimplemented => "unimplemented"
    case SkippedBudget => "skipped_budget"
  }

  lemma FieldOfEnd(runId: string, n: nat, t: Tally, hash: string, v: Verdict)
    ensures Find(Record(runId, n, RunEnd(t, hash)), KeyOf(v)) == Some(Uint(TotalOf(t, v)))
    ensures Find(Record(runId, n, RunEnd(t, hash)), "status") == Some(Str(OverallStatus(t)))
    ensures Find(Record(runId, n, RunEnd(t, hash)), "previous_content_sha256") == Some(Str(hash))
  {
    hide Header, Uint, OverallStatus, FindMember;
    var f := RunEnd(t, hash).fields;
    HeaderFields("run_end", runId, n, f, KeyOf(v));
    HeaderFields("run_end", runId, n, f, "status");
    HeaderFields("run_end", runId, n, f, "previous_content_sha256");
    FindSix(f[0], f[1], f[2], f[3], f[4], f[5], KeyOf(v));
    FindSix(f[0], f[1], f[2], f[3], f[4], f[5], "status");
    FindSix(f[0], f[1], f[2], f[3], f[4], f[5], "previous_content_sha256");
    assert f == [f[0], f[1], f[2], f[3], f[4], f[5]];
  }

  /** Whoever reads run_end finds under each name the number of cases with that verdict. */
  lemma RunEndTells(g: Campaign, n: nat, hash: string, v: Verdict)
    requires WellFormed(g) && |g.cases| < TWO_TO_53
    ensures var end := Record(g.runId, n, RunEnd(CasesTally(g.cases, g.fates, |g.cases|), hash));
      && GetUint(end, KeyOf(v)) == |Those(g, |g.cases|, v)|
      && GetString(end, "previous_content_sha256") == hash
  {
    hide Record, RunEnd, CasesTally, KeyOf, TotalOf, GetUint, Uint, Rounded, Those, Sum;
    var t := CasesTally(g.cases, g.fates, |g.cases|);
    FieldOfEnd(g.runId, n, t, hash, v);
    TotalsAre(g, |g.cases|, v);
    UintIsRead(Record(g.runId, n, RunEnd(t, hash)), KeyOf(v), TotalOf(t, v));
    TallyCountsEveryCase(g.cases, g.fates, |g.cases|);
    TotalIsPart(t, v);
    RoundedIsExact(TotalOf(t, v));
  }

  lemma TotalIsPart(t: Tally, v: Verdict)
    ensures TotalOf(t, v) <= Sum(t)
  {
  }
}
