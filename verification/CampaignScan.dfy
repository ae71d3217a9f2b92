/** The scan of `resume_campaign` (loadtests/campaign.cpp): what it makes of each record of a
    partial log, and which cases it finds pending. */
module CampaignScan {
  import opened Json
  import opened Text
  import opened CampaignLog

  // ----- reading a record: loadtests/json_value.hpp -----

  function FindMember(members: seq<Member>, key: string): Option<Json> {
    if members == [] then None
    else if members[0].key == key then Some(members[0].value)
    else FindMember(members[1..], key)
  }

  function Find(v: Json, key: string): Option<Json> {
    if v.Obj? then FindMember(v.members, key) else None
  }

  function GetString(v: Json, key: string): string {
    match Find(v, key)
    case Some(Str(s)) => s
    case _ => ""
  }

  /** The distance between neighbouring doubles at n. */
  function Ulp(n: nat): (u: nat)
    ensures u > 0
  {
    if n < 0x20_0000_0000_0000 then 1 else 2 * Ulp(n / 2)
  }

  /** The double nearest to n, the even one of two. */
  function Rounded(n: nat): nat {
    var u := Ulp(n);
    var q, r := n / u, n % u;
    if 2 * r < u || (2 * r == u && q % 2 == 0) then q * u else (q + 1) * u
  }

  /** `get_number` as an unsigned integer, for the tokens of unsigned integers; 0 for others. */
  function GetUint(v: Json, key: string): nat {
    match Find(v, key)
    case Some(Number(token)) => if AllDigits(token) then Rounded(NumberOf(token)) else 0
    case _ => 0
  }

  // ----- one record -----

  datatype Scan = Scan(runId: string, seed: string, plan: seq<string>, starts: map<nat, Json>, resolved: set<nat>,
                       nextPosition: nat, current: Option<nat>, sequence: nat, tally: Tally)

  const FRESH := Scan("", "", [], map[], {}, 0, None, 0, Tally(0, 0, 0, 0))

  function Strings(items: seq<Json>): seq<string> {
    if items == [] then []
    else Strings(items[..|items| - 1]) + match items[|items| - 1] case Str(s) => [s] case _ => []
  }

  function PlanOf(v: Json): seq<string> {
    match Find(v, "cases")
    case Some(Arr(items)) => Strings(items)
    case _ => []
  }

  predicate Contains(s: string, part: string) {
    exists i :: 0 <= i <= |s| && At(s, i, part)
  }

  /** `is_unimplemented_error_text`. */
  predicate IsUnimplementedText(error: string) {
    || Contains(error, NOT_IMPLEMENTED)
    || Contains(error, "ainda n\U{c3}\U{a3}o tem dispatch implementado")
    || Contains(error, "ainda n\U{c3}\U{a3}o tem target implementado")
  }

  function Max(a: nat, b: nat): nat {
    if a < b then b else a
  }

  function ErrorVerdict(v: Json): Verdict {
    if IsUnimplementedText(GetString(v, "error")) then Unimplemented else Failed
  }

  function SummaryVerdict(v: Json): Verdict {
    if GetString(v, "status") == "completed" then Completed else Failed
  }

  /** The kinds that the scan tells apart. */
  datatype Kind = RunStarts | PlanOfCases | CaseStarts | Summary | Error | Skip | Other

  function KindOf(record: string): Kind {
    if record == "run_start" then RunStarts
    else if record == "case_plan" then PlanOfCases
    else if record == "case_start" then CaseStarts
    else if record == "case_summary" then Summary
    else if record == "case_error" then Error
    else if record == "skipped_budget" then Skip
    else Other
  }

  /** What a record does, by its kind. */
  function Note(s: Scan, kind: Kind, v: Json): Scan {
    match kind
    case RunStarts => s.(runId := GetString(v, "run_id"), seed := GetString(v, "seed"))
    case PlanOfCases => s.(plan := s.plan + PlanOf(v))
    case CaseStarts =>
      s.(current := Some(s.nextPosition), nextPosition := s.nextPosition + 1, starts := s.starts[s.nextPosition := v])
    case Summary =>
      if s.current == None then s
      else s.(resolved := s.resolved + {s.current.value}, tally := Count(s.tally, SummaryVerdict(v)))
    case Error =>
      if s.current == None || s.current.value in s.resolved then s
      else s.(resolved := s.resolved + {s.current.value}, tally := Count(s.tally, ErrorVerdict(v)))
    case Skip =>
      s.(current := Some(s.nextPosition), nextPosition := s.nextPosition + 1, resolved := s.resolved + {s.nextPosition},
         tally := if s.nextPosition in s.resolved then s.tally else Count(s.tally, SkippedBudget))
    case Other => s
  }

  function ScanOne(s: Scan, v: Json): Scan {
    Note(s.(sequence := Max(s.sequence, GetUint(v, "sequence"))), KindOf(GetString(v, "record")), v)
  }

  function ScanAll(s: Scan, records: seq<Json>): Scan {
    if records == [] then s else ScanOne(ScanAll(s, records[..|records| - 1]), records[|records| - 1])
  }

  lemma ScanOneMore(s: Scan, records: seq<Json>, v: Json)
    ensures ScanAll(s, records + [v]) == ScanOne(ScanAll(s, records), v)
  {
    assert (records + [v])[..|records|] == records;
  }

  // ----- what is pending -----

  datatype Plan =
    | NotACampaign
    | NoCaseStart(position: nat)
    | NothingToDo
    | Pending(positions: seq<nat>)

  /** The first n positions: those without a verdict, or the first of them without case_start. */
  function PendingUpTo(s: Scan, n: nat): Plan
    ensures PendingUpTo(s, n).Pending? || PendingUpTo(s, n).NoCaseStart?
    ensures PendingUpTo(s, n).Pending? ==>
      forall i :: 0 <= i < |PendingUpTo(s, n).positions| ==> PendingUpTo(s, n).positions[i] in s.starts
  {
    if n == 0 then Pending([])
    else
      match PendingUpTo(s, n - 1)
      case Pending(positions) =>
        if n - 1 in s.resolved then Pending(positions)
        else if n - 1 !in s.starts then NoCaseStart(n - 1)
        else Pending(positions + [n - 1])
      case stopped => stopped
  }

  function WhatIsPending(s: Scan): Plan {
    if s.runId == "" || s.plan == [] then NotACampaign
    else
      var pending := PendingUpTo(s, |s.plan|);
      if pending == Pending([]) then NothingToDo else pending
  }

  // ----- the code -----

  class Scanner {
    var runId: string
    var seed: string
    var plan: seq<string>
    var starts: map<nat, Json>
    var resolved: set<nat>
    var nextPosition: nat
    var currentPosition: nat
    var haveCurrent: bool
    var sequence: nat
    var tally: Tally

    function Abs(): Scan
      reads this
    {
      Scan(runId, seed, plan, starts, resolved, nextPosition,
           if haveCurrent then Some(currentPosition) else None, sequence, tally)
    }

    constructor ()
      ensures Abs() == FRESH
    {
      runId, seed, plan, starts, resolved := "", "", [], map[], {};
      nextPosition, currentPosition, haveCurrent, sequence := 0, 0, false, 0;
      tally := Tally(0, 0, 0, 0);
    }

    /** The body of the scan loop for one parsed record. */
    method See(v: Json)
      modifies this
      ensures Abs() == ScanOne(old(Abs()), v)
    {
      sequence := Max(sequence, GetUint(v, "sequence"));
      SeeKind(GetString(v, "record"), v);
    }

    method SeeKind(record: string, v: Json)
      modifies this
      ensures Abs() == Note(old(Abs()), KindOf(record), v)
    {
      hide GetString, PlanOf, Count, ErrorVerdict, SummaryVerdict;
      if record == "run_start" {
        runId := GetString(v, "run_id");
        seed := GetString(v, "seed");
      } else if record == "case_plan" {
        AddPlan(v);
      } else if record == "case_start" {
        TakePosition();
        starts := starts[currentPosition := v];
      } else if record == "case_summary" {
        if haveCurrent {
          resolved := resolved + {currentPosition};
          tally := Count(tally, SummaryVerdict(v));
        }
      } else if record == "case_error" {
        if haveCurrent {
          ResolveOnce(ErrorVerdict(v));
        }
      } else if record == "skipped_budget" {
        TakePosition();
        ResolveOnce(SkippedBudget);
      }
    }

    method TakePosition()
      modifies this`currentPosition, this`nextPosition, this`haveCurrent
      ensures haveCurrent && currentPosition == old(nextPosition) && nextPosition == old(nextPosition) + 1
    {
      currentPosition := nextPosition;
      nextPosition := nextPosition + 1;
      haveCurrent := true;
    }

    /** Counts a position only the first time it is resolved. */
    method ResolveOnce(verdict: Verdict)
      modifies this`resolved, this`tally
      ensures resolved == old(resolved) + {currentPosition}
      ensures tally == if currentPosition in old(resolved) then old(tally) else Count(old(tally), verdict)
    {
      if currentPosition !in resolved {
        resolved := resolved + {currentPosition};
        tally := Count(tally, verdict);
      } else {
        assert resolved == resolved + {currentPosition};
      }
    }

    method AddPlan(v: Json)
      modifies this`plan
      ensures plan == old(plan) + PlanOf(v)
    {
      var cases := Find(v, "cases");
      if cases.Some? && cases.value.Arr? {
        var items := cases.value.items;
        for i := 0 to |items|
          invariant plan == old(plan) + Strings(items[..i])
        {
          assert items[..i + 1][..i] == items[..i];
          if items[i].Str? {
            plan := plan + [items[i].s];
          }
        }
        assert items[..|items|] == items;
      }
    }

    /** The loop over the plan. */
    method CollectPending() returns (pending: Plan)
      ensures pending == WhatIsPending(Abs())
    {
      if runId == "" || plan == [] {
        return NotACampaign;
      }
      var positions: seq<nat> := [];
      for position := 0 to |plan|
        invariant PendingUpTo(Abs(), position) == Pending(positions)
      {
        if position in resolved {
          continue;
        }
        if position !in starts {
          StopsForGood(Abs(), position + 1, |plan|);
          return NoCaseStart(position);
        }
        positions := positions + [position];
      }
      pending := if positions == [] then NothingToDo else Pending(positions);
    }
  }

  lemma {:induction false} StopsForGood(s: Scan, m: nat, n: nat)
    requires m <= n && PendingUpTo(s, m).NoCaseStart?
    ensures PendingUpTo(s, n) == PendingUpTo(s, m)
  {
    if m < n {
      StopsForGood(s, m, n - 1);
    }
  }
}
