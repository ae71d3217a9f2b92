/** A case that was written into a case_start line and read back by `resume_campaign`
    (loadtests/campaign.cpp): which cases come back as they were. The ratio of reads to writes is not
    in the line, a checkpoint interval of zero counts as absent, and numbers pass through doubles,
    which hold every integer below 2^53 and above it only multiples of their spacing. */
module CaseRestored {
  import opened Arithmetic
  import opened Json
  import opened Text
  import opened CaseId
  import opened CaseIdInjective
  import opened CampaignLog
  import opened CampaignScan
  import opened CampaignResume

  /** `case_from_case_start`. */
  function Restored(v: Json): Case {
    var interval := GetUint(v, "checkpoint_interval");
    Case(GetString(v, "workload"), GetString(v, "target"), GetString(v, "scale"), GetUint(v, "objects"),
         GetString(v, "environment"), GetString(v, "payload"), GetUint(v, "batch"), GetUint(v, "concurrency"),
         GetUint(v, "readers"), GetString(v, "durability"), GetString(v, "cache"), GetString(v, "primary_storage"),
         10, if interval > 0 then interval else 64, GetUint(v, "repeat_index"), GetString(v, "explicit_variant"))
  }

  // ----- numbers -----

  /** n is a double: it is a multiple of the distance between doubles of its size. */
  predicate IsDouble(n: nat) {
    n % Ulp(n) == 0
  }

  lemma RoundedExactly(n: nat)
    ensures Rounded(n) == n <==> IsDouble(n)
  {
    var u := Ulp(n);
    var q, r := n / u, n % u;
    assert n == q * u + r && (q + 1) * u == q * u + u;
  }

  predicate IsPowerOfTwo(u: nat) {
    u == 1 || (u > 0 && u % 2 == 0 && IsPowerOfTwo(u / 2))
  }

  /** The distance is the power of two that leaves 53 significant bits. */
  lemma {:induction false} UlpExactly(n: nat)
    ensures IsPowerOfTwo(Ulp(n)) && n / Ulp(n) < 0x20_0000_0000_0000
    ensures Ulp(n) == 1 || n / Ulp(n) >= 0x10_0000_0000_0000
  {
    if n >= 0x20_0000_0000_0000 {
      UlpExactly(n / 2);
      DivideByDouble(n, Ulp(n / 2));
    }
  }

  /** No multiple of the distance lies nearer, and of two as near it is the even one. */
  lemma RoundedIsNearest(n: nat) returns (k: nat)
    ensures Rounded(n) == k * Ulp(n) && 2 * n - Ulp(n) <= 2 * Rounded(n) <= 2 * n + Ulp(n)
    ensures 2 * Rounded(n) in {2 * n - Ulp(n), 2 * n + Ulp(n)} ==> k % 2 == 0
  {
    hide Ulp;
    var u := Ulp(n);
    var q, r := n / u, n % u;
    var below, above := q * u, (q + 1) * u;
    OneDistance(q, u);
    assert n == below + r;
    k := if 2 * r < u || (2 * r == u && q % 2 == 0) then q else q + 1;
    assert Rounded(n) == if k == q then below else above;
  }

  lemma OneDistance(q: nat, u: nat)
    ensures (q + 1) * u == q * u + u
  {
  }

  lemma SmallIsDouble(n: nat)
    requires n < TWO_TO_53
    ensures IsDouble(n)
  {
  }

  lemma RoundedIsPositive(n: nat)
    ensures Rounded(n) > 0 <==> n > 0
  {
    if n >= TWO_TO_53 {
      UlpIsSmall(n);
    }
  }

  lemma {:induction false} UlpIsSmall(n: nat)
    requires n >= TWO_TO_53
    ensures Ulp(n) <= n && Rounded(n) > 0
  {
    UlpBelow(n);
    var u := Ulp(n);
    assert n / u >= 1;
    assert (n / u) * u > 0 && (n / u + 1) * u > 0;
  }

  lemma {:induction false} UlpBelow(n: nat)
    requires n > 0
    ensures Ulp(n) <= n
  {
    if n >= TWO_TO_53 {
      UlpBelow(n / 2);
    }
  }

  // ----- the fields -----

  /** What `case_params_json` writes under a key. */
  function Param(c: Case, key: string): Option<Json> {
    if key == "workload" then Some(Str(c.workload))
    else if key == "target" then Some(Str(c.target))
    else if key == "scale" then Some(Str(c.scale))
    else if key == "objects" then Some(Uint(c.objects))
    else if key == "environment" then Some(Str(c.environment))
    else if key == "payload" then Some(Str(c.payload))
    else if key == "batch" then Some(Uint(c.batch))
    else if key == "concurrency" then Some(Uint(c.concurrency))
    else if key == "readers" then Some(Uint(c.readers))
    else if key == "durability" then Some(Str(c.durability))
    else if key == "cache" then Some(Str(c.cache))
    else if key == "primary_storage" then Some(Str(c.primaryStorage))
    else if key == "checkpoint_interval" then Some(Uint(c.checkpointInterval))
    else if key == "repeat_index" then Some(Uint(c.repeatIndex))
    else if key == "explicit_variant" then Some(Str(c.explicitVariant))
    else None
  }

  lemma ParamFields(c: Case, key: string)
    ensures FindMember(CaseParams(c), key) == Param(c, key)
  {
    hide FindMember;
    var place, load, store := PlaceParams(c), LoadParams(c), StoreParams(c);
    FindFive(place[0], place[1], place[2], place[3], place[4], key);
    FindFive(load[0], load[1], load[2], load[3], load[4], key);
    FindFive(store[0], store[1], store[2], store[3], store[4], key);
    FindInBoth(load, store, key);
    FindInBoth(place, load + store, key);
  }

  lemma {:induction false} FindInBoth(a: seq<Member>, b: seq<Member>, key: string)
    ensures FindMember(a + b, key) == if FindMember(a, key).Some? then FindMember(a, key) else FindMember(b, key)
  {
    if a == [] {
      assert a + b == b;
    } else {
      assert (a + b)[1..] == a[1..] + b;
      FindInBoth(a[1..], b, key);
    }
  }

  lemma FindFive(m0: Member, m1: Member, m2: Member, m3: Member, m4: Member, key: string)
    ensures FindMember([m0, m1, m2, m3, m4], key)
         == if m0.key == key then Some(m0.value)
            else if m1.key == key then Some(m1.value)
            else if m2.key == key then Some(m2.value)
            else if m3.key == key then Some(m3.value)
            else if m4.key == key then Some(m4.value)
            else None
  {
    var f4, f3, f2, f1 := [m4], [m3, m4], [m2, m3, m4], [m1, m2, m3, m4];
    assert f4 == [m4] + [] && f3 == [m3] + f4 && f2 == [m2] + f3 && f1 == [m1] + f2;
    assert [m0, m1, m2, m3, m4] == [m0] + f1;
    FindNext(m0, f1, key);
    FindNext(m1, f2, key);
    FindNext(m2, f3, key);
    FindNext(m3, f4, key);
    FindNext(m4, [], key);
  }

  lemma FieldOfStart(c: Case, runId: string, n: nat, key: string)
    requires key != "schema" && key != "schema_version" && key != "record" && key != "run_id"
    requires key != "sequence" && key != "case_id"
    ensures Find(Record(runId, n, CaseStart(c)), key) == FindMember(CaseParams(c), key)
  {
    hide CaseParams, Header;
    var id := Member("case_id", Str(IdOf(c)));
    HeaderFields("case_start", runId, n, [id] + CaseParams(c), key);
    FindNext(id, CaseParams(c), key);
  }

  /** Whatever was written under a key is found in the line. */
  lemma ParamIsFound(c: Case, runId: string, n: nat, key: string)
    requires Param(c, key).Some?
    ensures Find(Record(runId, n, CaseStart(c)), key) == Param(c, key)
  {
    hide CaseParams, Record, CaseStart;
    FieldOfStart(c, runId, n, key);
    ParamFields(c, key);
  }

  /** A text comes back as it was… */
  lemma TextIsRead(c: Case, runId: string, n: nat, key: string, s: string)
    requires Param(c, key) == Some(Str(s))
    ensures GetString(Record(runId, n, CaseStart(c)), key) == s
  {
    hide Record, CaseStart, Param;
    ParamIsFound(c, runId, n, key);
  }

  /** …and a number as the nearest double. */
  lemma NumberIsRead(c: Case, runId: string, n: nat, key: string, m: nat)
    requires Param(c, key) == Some(Uint(m))
    ensures GetUint(Record(runId, n, CaseStart(c)), key) == Rounded(m)
  {
    hide Record, CaseStart, Param;
    ParamIsFound(c, runId, n, key);
    UintIsRead(Record(runId, n, CaseStart(c)), key, m);
  }

  lemma PlaceIsRead(c: Case, runId: string, n: nat)
    ensures var v := Record(runId, n, CaseStart(c));
      && GetString(v, "workload") == c.workload && GetString(v, "target") == c.target
      && GetString(v, "scale") == c.scale && GetUint(v, "objects") == Rounded(c.objects)
      && GetString(v, "environment") == c.environment
  {
    hide Record, CaseStart, GetString, GetUint, Rounded, Uint;
    TextIsRead(c, runId, n, "workload", c.workload);
    TextIsRead(c, runId, n, "target", c.target);
    TextIsRead(c, runId, n, "scale", c.scale);
    NumberIsRead(c, runId, n, "objects", c.objects);
    TextIsRead(c, runId, n, "environment", c.environment);
  }

  lemma LoadIsRead(c: Case, runId: string, n: nat)
    ensures var v := Record(runId, n, CaseStart(c));
      && GetString(v, "payload") == c.payload && GetUint(v, "batch") == Rounded(c.batch)
      && GetUint(v, "concurrency") == Rounded(c.concurrency) && GetUint(v, "readers") == Rounded(c.readers)
      && GetString(v, "durability") == c.durability
  {
    hide Record, CaseStart, GetString, GetUint, Rounded, Uint;
    TextIsRead(c, runId, n, "payload", c.payload);
    NumberIsRead(c, runId, n, "batch", c.batch);
    NumberIsRead(c, runId, n, "concurrency", c.concurrency);
    NumberIsRead(c, runId, n, "readers", c.readers);
    TextIsRead(c, runId, n, "durability", c.durability);
  }

  lemma StoreIsRead(c: Case, runId: string, n: nat)
    ensures var v := Record(runId, n, CaseStart(c));
      && GetString(v, "cache") == c.cache && GetString(v, "primary_storage") == c.primaryStorage
      && GetUint(v, "checkpoint_interval") == Rounded(c.checkpointInterval)
      && GetUint(v, "repeat_index") == Rounded(c.repeatIndex)
      && GetString(v, "explicit_variant") == c.explicitVariant
  {
    hide Record, CaseStart, GetString, GetUint, Rounded, Uint;
    TextIsRead(c, runId, n, "cache", c.cache);
    TextIsRead(c, runId, n, "primary_storage", c.primaryStorage);
    NumberIsRead(c, runId, n, "checkpoint_interval", c.checkpointInterval);
    NumberIsRead(c, runId, n, "repeat_index", c.repeatIndex);
    TextIsRead(c, runId, n, "explicit_variant", c.explicitVariant);
  }

  // ----- main result -----

  lemma RestoredIs(c: Case, runId: string, n: nat)
    ensures Restored(Record(runId, n, CaseStart(c)))
         == c.(readsPerWrite := 10, objects := Rounded(c.objects), batch := Rounded(c.batch),
               concurrency := Rounded(c.concurrency), readers := Rounded(c.readers),
               checkpointInterval := if c.checkpointInterval > 0 then Rounded(c.checkpointInterval) else 64,
               repeatIndex := Rounded(c.repeatIndex))
  {
    hide Record, CaseStart, GetString, GetUint, Rounded;
    RoundedIsPositive(c.checkpointInterval);
    PlaceIsRead(c, runId, n);
    LoadIsRead(c, runId, n);
    StoreIsRead(c, runId, n);
  }

  /** The case comes back as it was, exactly when its reads per write are the default, its
      checkpoint interval is not zero and its counters are doubles. */
  lemma RestoredExactly(c: Case, runId: string, n: nat)
    ensures Restored(Record(runId, n, CaseStart(c))) == c
        <==> && c.readsPerWrite == 10 && c.checkpointInterval > 0
             && IsDouble(c.objects) && IsDouble(c.batch) && IsDouble(c.concurrency) && IsDouble(c.readers)
             && IsDouble(c.checkpointInterval) && IsDouble(c.repeatIndex)
  {
    hide Record, CaseStart, Restored, Rounded, IsDouble;
    RestoredIs(c, runId, n);
    RoundedExactly(c.objects);
    RoundedExactly(c.batch);
    RoundedExactly(c.concurrency);
    RoundedExactly(c.readers);
    RoundedExactly(c.checkpointInterval);
    RoundedExactly(c.repeatIndex);
  }

  /** With counters below 2^53 there is nothing else to lose. */
  lemma SmallCountersAreKept(c: Case, runId: string, n: nat)
    requires c.objects < TWO_TO_53 && c.batch < TWO_TO_53 && c.concurrency < TWO_TO_53
    requires c.readers < TWO_TO_53 && c.checkpointInterval < TWO_TO_53 && c.repeatIndex < TWO_TO_53
    ensures Restored(Record(runId, n, CaseStart(c)))
         == c.(readsPerWrite := 10, checkpointInterval := if c.checkpointInterval > 0 then c.checkpointInterval else 64)
  {
    hide Record, CaseStart, Restored, Rounded;
    RestoredIs(c, runId, n);
    RoundedIsExact(c.objects);
    RoundedIsExact(c.batch);
    RoundedIsExact(c.concurrency);
    RoundedIsExact(c.readers);
    RoundedIsExact(c.checkpointInterval);
    RoundedIsExact(c.repeatIndex);
  }

  /** A resumed case with a ratio of its own runs under another label than the plan gave it. */
  lemma ResumedRatioChangesTheLabel(c: Case, runId: string, n: nat)
    requires Reason(c) == Accepted && DotFree(c) && c.readsPerWrite != 10
    requires c.objects < TWO_TO_53 && c.batch < TWO_TO_53 && c.concurrency < TWO_TO_53
    requires c.checkpointInterval < TWO_TO_53 && c.repeatIndex < TWO_TO_53
    ensures IdOf(Restored(Record(runId, n, CaseStart(c)))) != IdOf(c)
  {
    hide Record, CaseStart, Restored, IdOf, Underscores, DotFree;
    var back :=
      c.(readsPerWrite := 10, checkpointInterval := if c.checkpointInterval > 0 then c.checkpointInterval else 64);
    SmallCountersAreKept(c, runId, n);
    assert Reason(back) == Accepted;
    DotFreeByName(c, back);
    if IdOf(back) == IdOf(c) {
      CaseIdIsInjectiveExactly(back, c);
    }
  }

  lemma DotFreeByName(a: Case, b: Case)
    requires DotFree(a) && a.workload == b.workload && a.target == b.target && a.scale == b.scale
    ensures DotFree(b)
  {
  }
}
