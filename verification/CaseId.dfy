/** The case ids of loadtests/matrix.cpp: a label for a point of the test matrix, and the filter
    that refuses points whose label would promise what the harness does not do. */
module CaseId {
  import opened Separated
  import opened Text

  datatype Case = Case(workload: string, target: string, scale: string, objects: nat, environment: string,
                       payload: string, batch: nat, concurrency: nat, readers: nat,
                       durability: string, cache: string, primaryStorage: string, readsPerWrite: nat,
                       checkpointInterval: nat, repeatIndex: nat, explicitVariant: string)

  const KNOWN_WORKLOADS: seq<string> := [
    "create_only", "create_delete_forward", "create_delete_reverse", "create_delete_interleaved", "crud_full",
    "read_hotspot", "range_scan_sweep", "mixed_oltp", "snapshot_hold", "blob_lifecycle", "cascade_delete",
    "oversubscribed_churn", "restart_recovery", "schema_evolution", "replica_catchup"]

  const KNOWN_TARGETS: seq<string> := [
    "embedded", "loopback", "loopback_proxy", "remote_colocated", "remote_client_local"]

  function ObjectsForScale(scale: string): Option<nat> {
    if scale == "1k" then Some(1000)
    else if scale == "10k" then Some(10000)
    else if scale == "100k" then Some(100000)
    else if scale == "250k" then Some(250000)
    else if scale == "500k" then Some(500000)
    else if scale == "1M" then Some(1000000)
    else if scale == "5M" then Some(5000000)
    else None
  }

  lemma RoundDecimals()
    ensures Decimal(1) == "1" && Decimal(5) == "5"
    ensures Decimal(10) == "10" && Decimal(25) == "25" && Decimal(50) == "50"
  {
    assert Decimal(2) == "2";
  }

  lemma LongDecimals()
    ensures Decimal(100) == "100" && Decimal(250) == "250" && Decimal(500) == "500"
  {
    RoundDecimals();
  }

  /** The label of a scale names its number of objects. */
  lemma ScaleNamesItsCount(scale: string)
    requires ObjectsForScale(scale).Some?
    ensures var n := ObjectsForScale(scale).value;
      scale == if n < 1000000 then Decimal(n / 1000) + "k" else Decimal(n / 1000000) + "M"
  {
    hide Decimal;
    RoundDecimals();
    LongDecimals();
  }

  // ----- printing -----

  function Push(parts: seq<string>, b: bool, part: string): seq<string> {
    if b then parts + [part] else parts
  }

  function PushCache(parts: seq<string>, c: Case): seq<string> {
    if c.cache == "database_reopen" then parts + ["reopen"]
    else if c.cache == "oversubscribed" then parts + ["oversubscribed"]
    else parts
  }

  /** The dimensions that are not at their default. */
  function Parts(c: Case): seq<string> {
    var p0 := Push([], c.concurrency != 1, "c" + Decimal(c.concurrency));
    var p1 := Push(p0, c.payload != "normal", "payload_" + c.payload);
    var p2 := Push(p1, c.batch != 1000, "batch" + Decimal(c.batch));
    var p3 := Push(p2, c.durability != "sync_real", "nosync");
    var p4 := PushCache(p3, c);
    var p5 := Push(p4, c.primaryStorage != "full", "walonly");
    var p6 := Push(p5, c.readsPerWrite != 10, "rw" + Decimal(c.readsPerWrite));
    Push(p6, c.checkpointInterval != 64, "ckpt" + Decimal(c.checkpointInterval))
  }

  predicate NoneEmpty(parts: seq<string>) {
    forall i :: 0 <= i < |parts| ==> parts[i] != ""
  }

  lemma PushKeeps(parts: seq<string>, b: bool, part: string)
    requires NoneEmpty(parts) && part != ""
    ensures NoneEmpty(Push(parts, b, part))
  {
  }

  lemma PartsAreNotEmpty(c: Case)
    ensures NoneEmpty(Parts(c))
  {
    var p0 := Push([], c.concurrency != 1, "c" + Decimal(c.concurrency));
    var p1 := Push(p0, c.payload != "normal", "payload_" + c.payload);
    var p2 := Push(p1, c.batch != 1000, "batch" + Decimal(c.batch));
    var p3 := Push(p2, c.durability != "sync_real", "nosync");
    var p4 := PushCache(p3, c);
    var p5 := Push(p4, c.primaryStorage != "full", "walonly");
    var p6 := Push(p5, c.readsPerWrite != 10, "rw" + Decimal(c.readsPerWrite));
    PushKeeps([], c.concurrency != 1, "c" + Decimal(c.concurrency));
    PushKeeps(p0, c.payload != "normal", "payload_" + c.payload);
    PushKeeps(p1, c.batch != 1000, "batch" + Decimal(c.batch));
    PushKeeps(p2, c.durability != "sync_real", "nosync");
    assert NoneEmpty(p4);
    PushKeeps(p4, c.primaryStorage != "full", "walonly");
    PushKeeps(p5, c.readsPerWrite != 10, "rw" + Decimal(c.readsPerWrite));
    PushKeeps(p6, c.checkpointInterval != 64, "ckpt" + Decimal(c.checkpointInterval));
  }

  lemma NothingPushed(parts: seq<string>, b: bool, part: string)
    ensures Push(parts, b, part) == [] <==> parts == [] && !b
  {
  }

  lemma NoPartsExactly(c: Case)
    ensures Parts(c) == []
       <==> && c.concurrency == 1 && c.payload == "normal" && c.batch == 1000 && c.durability == "sync_real"
            && c.cache != "database_reopen" && c.cache != "oversubscribed" && c.primaryStorage == "full"
            && c.readsPerWrite == 10 && c.checkpointInterval == 64
  {
    hide Push;
    var p0 := Push([], c.concurrency != 1, "c" + Decimal(c.concurrency));
    var p1 := Push(p0, c.payload != "normal", "payload_" + c.payload);
    var p2 := Push(p1, c.batch != 1000, "batch" + Decimal(c.batch));
    var p3 := Push(p2, c.durability != "sync_real", "nosync");
    var p4 := PushCache(p3, c);
    var p5 := Push(p4, c.primaryStorage != "full", "walonly");
    var p6 := Push(p5, c.readsPerWrite != 10, "rw" + Decimal(c.readsPerWrite));
    NothingPushed([], c.concurrency != 1, "c" + Decimal(c.concurrency));
    NothingPushed(p0, c.payload != "normal", "payload_" + c.payload);
    NothingPushed(p1, c.batch != 1000, "batch" + Decimal(c.batch));
    NothingPushed(p2, c.durability != "sync_real", "nosync");
    NothingPushed(p4, c.primaryStorage != "full", "walonly");
    NothingPushed(p5, c.readsPerWrite != 10, "rw" + Decimal(c.readsPerWrite));
    NothingPushed(p6, c.checkpointInterval != 64, "ckpt" + Decimal(c.checkpointInterval));
  }

  function Suffix(c: Case): string {
    if c.explicitVariant == "" then Join(Parts(c), '_') else c.explicitVariant
  }

  lemma JoinIsEmpty(parts: seq<string>)
    requires NoneEmpty(parts)
    ensures Join(parts, '_') == "" <==> parts == []
  {
  }

  /** An id has no suffix exactly when every dimension that it could show is at its default. */
  lemma NoSuffixExactly(c: Case)
    ensures Suffix(c) == ""
       <==> && c.explicitVariant == "" && c.concurrency == 1 && c.payload == "normal" && c.batch == 1000
            && c.durability == "sync_real" && c.cache != "database_reopen" && c.cache != "oversubscribed"
            && c.primaryStorage == "full" && c.readsPerWrite == 10 && c.checkpointInterval == 64
  {
    hide Parts;
    NoPartsExactly(c);
    PartsAreNotEmpty(c);
    JoinIsEmpty(Parts(c));
  }

  function IdWith(workload: string, target: string, scale: string, suffix: string): string {
    "load." + workload + "." + target + "." + scale + if suffix == "" then "" else "." + suffix
  }

  function IdOf(c: Case): string {
    IdWith(c.workload, c.target, c.scale, Suffix(c))
  }

  /** `Case::case_id`. */
  method PrintId(c: Case) returns (id: string)
    ensures id == IdOf(c)
  {
    id := "load." + c.workload + "." + c.target + "." + c.scale;
    var suffix := c.explicitVariant;
    if suffix == "" {
      var parts := CollectParts(c);
      PartsAreNotEmpty(c);
      suffix := JoinParts(parts);
    }
    if suffix != "" {
      id := id + "." + suffix;
    }
  }

  method CollectParts(c: Case) returns (parts: seq<string>)
    ensures parts == Parts(c)
  {
    hide Decimal;
    parts := [];
    if c.concurrency != 1 {
      parts := parts + ["c" + Decimal(c.concurrency)];
    }
    if c.payload != "normal" {
      parts := parts + ["payload_" + c.payload];
    }
    if c.batch != 1000 {
      parts := parts + ["batch" + Decimal(c.batch)];
    }
    if c.durability != "sync_real" {
      parts := parts + ["nosync"];
    }
    if c.cache == "database_reopen" {
      parts := parts + ["reopen"];
    } else if c.cache == "oversubscribed" {
      parts := parts + ["oversubscribed"];
    }
    if c.primaryStorage != "full" {
      parts := parts + ["walonly"];
    }
    if c.readsPerWrite != 10 {
      parts := parts + ["rw" + Decimal(c.readsPerWrite)];
    }
    if c.checkpointInterval != 64 {
      parts := parts + ["ckpt" + Decimal(c.checkpointInterval)];
    }
  }

  method JoinParts(parts: seq<string>) returns (suffix: string)
    requires NoneEmpty(parts)
    ensures suffix == Join(parts, '_')
  {
    suffix := "";
    for i := 0 to |parts|
      invariant suffix == Join(parts[..i], '_') && (i > 0 ==> suffix != "")
    {
      assert parts[..i + 1] == parts[..i] + [parts[i]];
      if i > 0 {
        JoinAppends(parts[..i], [parts[i]], '_');
      }
      if suffix != "" {
        suffix := suffix + "_";
      }
      suffix := suffix + parts[i];
    }
    assert parts[..|parts|] == parts;
  }

  // ----- the filter -----

  datatype Refusal =
    | Accepted | ExplicitVariant | Concurrency | ReadsPerWrite | Readers | UnknownDurability
    | CheckpointTarget | DurabilityTarget | Cache | PrimaryStorage

  /** `unimplemented_dimension_reason`, which returns the empty text for Accepted. */
  function Reason(c: Case): Refusal {
    if c.explicitVariant != "" then ExplicitVariant
    else if c.concurrency != 1 && c.workload != "mixed_oltp" then Concurrency
    else if c.readsPerWrite != 10 && c.workload != "mixed_oltp" then ReadsPerWrite
    else if c.readers != 0 then Readers
    else if c.durability != "sync_real" && c.durability != "disabled_diagnostic" then UnknownDurability
    else if c.checkpointInterval != 64 && c.target != "embedded" then CheckpointTarget
    else if c.durability != "sync_real" && c.target != "embedded" then DurabilityTarget
    else if c.cache != "warm" then Cache
    else if c.primaryStorage != "full" then PrimaryStorage
    else Accepted
  }

  /** A case is accepted exactly when nothing in its id promises more than the harness does: only
      mixed_oltp has sessions and a ratio, only the embedded target chooses durability and
      checkpoints, and the other dimensions stand at their defaults. */
  lemma AcceptedExactly(c: Case)
    ensures Reason(c) == Accepted
       <==> && c.explicitVariant == "" && c.readers == 0 && c.cache == "warm" && c.primaryStorage == "full"
            && (c.workload == "mixed_oltp" || (c.concurrency == 1 && c.readsPerWrite == 10))
            && (c.target == "embedded" || (c.checkpointInterval == 64 && c.durability == "sync_real"))
            && (c.durability == "sync_real" || c.durability == "disabled_diagnostic")
  {
  }

  /** The dimensions of a case: all but the object count, which the scale fixes, the environment
      and the repeat index, which take no part in the id. */
  predicate SameDimensions(a: Case, b: Case) {
    a.(objects := b.objects, environment := b.environment, repeatIndex := b.repeatIndex) == b
  }

  // ----- reading an id back, piece by piece -----

  predicate DotFree(c: Case) {
    Free(c.workload, '.') && Free(c.target, '.') && Free(c.scale, '.')
  }

  function Pieces(c: Case): seq<string> {
    ["load", c.workload, c.target, c.scale] + if Suffix(c) == "" then [] else Split(Suffix(c), '.')
  }

  lemma IdIsJoined(c: Case)
    requires DotFree(c)
    ensures AllFree(Pieces(c), '.') && Join(Pieces(c), '.') == IdOf(c)
  {
    var head := ["load", c.workload, c.target, c.scale];
    SplitIsFree(Suffix(c), '.');
    HeadOfId(c.workload, c.target, c.scale);
    if Suffix(c) == "" {
      assert Pieces(c) == head;
    } else {
      JoinOfSplit(Suffix(c), '.');
      JoinAppends(head, Split(Suffix(c), '.'), '.');
      WithSuffix(Join(head, '.'), Suffix(c));
    }
  }

  lemma WithSuffix(id: string, suffix: string)
    ensures id + (['.'] + suffix) == id + ("." + suffix)
  {
  }

  lemma HeadOfId(w: string, t: string, s: string)
    ensures Join(["load", w, t, s], '.') == "load." + w + "." + t + "." + s
  {
    var parts := ["load", w, t, s];
    assert parts[1..] == [w, t, s] && parts[1..][1..] == [t, s] && parts[1..][1..][1..] == [s];
    assert Join([t, s], '.') == t + (['.'] + s);
    assert Join([w, t, s], '.') == w + (['.'] + (t + (['.'] + s)));
    Flat(w, t, s);
  }

  lemma Flat(w: string, t: string, s: string)
    ensures "load" + (['.'] + (w + (['.'] + (t + (['.'] + s))))) == "load." + w + "." + t + "." + s
  {
    assert "load" + (['.'] + w) == "load." + w;
    Regroup("load.", w, "." + t);
  }

  /** Equal ids: equal heads and equal suffixes. */
  lemma SameIdSameSuffix(a: Case, b: Case)
    requires DotFree(a) && DotFree(b) && IdOf(a) == IdOf(b)
    ensures a.workload == b.workload && a.target == b.target && a.scale == b.scale && Suffix(a) == Suffix(b)
  {
    IdIsJoined(a);
    IdIsJoined(b);
    SplitOfJoin(Pieces(a), '.');
    SplitOfJoin(Pieces(b), '.');
    var pa, pb := Pieces(a), Pieces(b);
    assert pa[1] == pb[1] && pa[2] == pb[2] && pa[3] == pb[3];
    assert pa[4..] == pb[4..];
    JoinOfSplit(Suffix(a), '.');
    JoinOfSplit(Suffix(b), '.');
  }
}
