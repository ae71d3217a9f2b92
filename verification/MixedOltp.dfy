/** The bookkeeping of the mixed_oltp workload (loadtests/target_embedded.cpp). */
module MixedOltp {
  // Each session holds the mutex for a whole operation, so a run is a sequence of locked sections
  // in some order. The engine is a map that a commit changes at once or not at all.

  /** The user `generate_user_ex` makes from these arguments, a pure function of them. */
  datatype Row = Row(seed: nat, logicalId: nat, filler: nat, status: nat)

  datatype Class = Create | Read | Update | Remove | Noop

  /** What one section draws from its generator, and which engine calls succeed in it. */
  datatype Draw = Draw(mix: nat, pick: nat, index: nat, status: nat,
                       begins: bool, finds: bool, acts: bool, commits: bool, newId: nat)

  datatype Config = Config(seed: nat, filler: nat, readsPerWrite: nat)

  /** `MixedOltpSharedState` and the committed rows of the engine. thrown counts the sections
      that an exception of `.at()` left early. */
  datatype Shared = Shared(
    rows: map<nat, Row>,
    live: seq<nat>, logicalOf: map<nat, nat>, expected: map<nat, Row>,
    nextLogical: nat, created: nat, deleted: nat, errors: nat, thrown: nat,
    counts: map<Class, nat>)

  function Intended(cfg: Config, d: Draw): Class {
    if d.mix % (cfg.readsPerWrite + 1) != 0 then Read
    else if d.pick % 4 == 0 then Create
    else if d.pick % 4 == 3 then Remove
    else Update
  }

  function Actual(cfg: Config, s: Shared, d: Draw): Class {
    if !Intended(cfg, d).Create? && s.live == [] then Noop else Intended(cfg, d)
  }

  function Failed(s: Shared): Shared {
    s.(errors := s.errors + 1)
  }

  /** The catch block: only the error is counted. */
  function Thrown(s: Shared): Shared {
    s.(errors := s.errors + 1, thrown := s.thrown + 1)
  }

  function Counted(s: Shared, c: Class): Shared {
    s.(counts := s.counts[c := (if c in s.counts then s.counts[c] else 0) + 1])
  }

  /** One more user in place: the row, its logical id and its expected value. */
  function Added(s: Shared, id: nat, l: nat, row: Row): Shared {
    s.(rows := s.rows[id := row], live := s.live + [id],
       logicalOf := s.logicalOf[id := l], expected := s.expected[l := row], created := s.created + 1)
  }

  function DoCreate(cfg: Config, s: Shared, d: Draw): Shared {
    var l := s.nextLogical + 1;
    var s1 := s.(nextLogical := l);
    var row := Row(cfg.seed, l, cfg.filler, l % 3);
    if !d.begins || !d.acts || !d.commits then Counted(Failed(s1), Create)
    else Counted(Added(s1, d.newId, l, row), Create)
  }

  function DoRead(s: Shared, d: Draw): Shared
    requires s.live != []
  {
    var id := s.live[d.index % |s.live|];
    if id !in s.rows || !d.finds || !d.acts then Counted(Failed(s), Read) else Counted(s, Read)
  }

  function DoUpdate(cfg: Config, s: Shared, d: Draw): Shared
    requires s.live != []
  {
    var id := s.live[d.index % |s.live|];
    if id !in s.logicalOf then Thrown(s)
    else
      var l := s.logicalOf[id];
      var row := Row(cfg.seed, l, cfg.filler, d.status % 3);
      if id !in s.rows || !d.finds || !d.begins || !d.acts || !d.commits then Counted(Failed(s), Update)
      else Counted(s.(rows := s.rows[id := row], expected := s.expected[l := row]), Update)
  }

  /** `live_ids[idx] = live_ids.back(); live_ids.pop_back()`. */
  function SwapRemove(live: seq<nat>, i: nat): seq<nat>
    requires i < |live|
  {
    live[i := live[|live| - 1]][..|live| - 1]
  }

  function DoRemove(s: Shared, d: Draw): Shared
    requires s.live != []
  {
    var i := d.index % |s.live|;
    var id := s.live[i];
    if id !in s.rows || !d.begins || !d.acts || !d.commits then Counted(Failed(s), Remove)
    else
      var s1 := s.(rows := s.rows - {id});
      if id !in s.logicalOf then Thrown(s1)
      else Counted(s1.(expected := s.expected - {s.logicalOf[id]},
                       logicalOf := s.logicalOf - {id},
                       live := SwapRemove(s.live, i),
                       deleted := s.deleted + 1), Remove)
  }

  /** One locked section. */
  function Section(cfg: Config, s: Shared, d: Draw): Shared {
    match Actual(cfg, s, d)
    case Create => DoCreate(cfg, s, d)
    case Read => if s.live == [] then s else DoRead(s, d)
    case Update => if s.live == [] then s else DoUpdate(cfg, s, d)
    case Remove => if s.live == [] then s else DoRemove(s, d)
    case Noop => Counted(s, Noop)
  }

  /** The engine gives out no id of a row it holds; ids of removed rows may come back. */
  predicate FreshId(s: Shared, d: Draw) {
    d.newId !in s.rows
  }

  function Run(cfg: Config, s: Shared, draws: seq<Draw>): Shared
    decreases |draws|
  {
    if draws == [] then s else Run(cfg, Section(cfg, s, draws[0]), draws[1..])
  }

  predicate EngineIsFresh(cfg: Config, s: Shared, draws: seq<Draw>)
    decreases |draws|
  {
    draws == [] || (FreshId(s, draws[0]) && EngineIsFresh(cfg, Section(cfg, s, draws[0]), draws[1..]))
  }

  // ----- the invariant -----

  predicate Distinct(live: seq<nat>) {
    forall i, j :: 0 <= i < j < |live| ==> live[i] != live[j]
  }

  /** Live ids are distinct, and they are the ids with a logical id and the ids of the rows. */
  ghost predicate IdsAgree(live: seq<nat>, logicalOf: map<nat, nat>, rows: map<nat, Row>) {
    && Distinct(live)
    && (forall id :: id in logicalOf <==> id in live)
    && (forall id :: id in rows <==> id in live)
  }

  /** The ids are in bijection with the logical ids that have an expected value. */
  ghost predicate Bijection(logicalOf: map<nat, nat>, expected: map<nat, Row>) {
    && (forall a, b :: a in logicalOf && b in logicalOf && a != b ==> logicalOf[a] != logicalOf[b])
    && (forall a :: a in logicalOf ==> logicalOf[a] in expected)
    && (forall l :: l in expected ==> exists a :: a in logicalOf && logicalOf[a] == l)
  }

  /** The engine holds exactly the expected values. */
  ghost predicate RowsAsExpected(rows: map<nat, Row>, logicalOf: map<nat, nat>, expected: map<nat, Row>) {
    forall id :: id in rows && id in logicalOf && logicalOf[id] in expected ==> rows[id] == expected[logicalOf[id]]
  }

  ghost predicate Inv(s: Shared) {
    && IdsAgree(s.live, s.logicalOf, s.rows)
    && Bijection(s.logicalOf, s.expected)
    && (forall l :: l in s.expected ==> l <= s.nextLogical)
    && RowsAsExpected(s.rows, s.logicalOf, s.expected)
    && s.created == s.deleted + |s.live|
    && s.thrown == 0
  }

  lemma BijectionGrows(logicalOf: map<nat, nat>, expected: map<nat, Row>, id: nat, l: nat, row: Row)
    requires Bijection(logicalOf, expected) && id !in logicalOf && l !in expected
    ensures Bijection(logicalOf[id := l], expected[l := row])
  {
    var logicalOf', expected' := logicalOf[id := l], expected[l := row];
    forall k | k in expected' ensures exists a :: a in logicalOf' && logicalOf'[a] == k {
      if k == l {
        assert logicalOf'[id] == l;
      } else {
        var a :| a in logicalOf && logicalOf[a] == k;
        assert logicalOf'[a] == k;
      }
    }
  }

  lemma BijectionShrinks(logicalOf: map<nat, nat>, expected: map<nat, Row>, id: nat)
    requires Bijection(logicalOf, expected) && id in logicalOf
    ensures Bijection(logicalOf - {id}, expected - {logicalOf[id]})
  {
    var logicalOf', expected' := logicalOf - {id}, expected - {logicalOf[id]};
    forall k | k in expected' ensures exists a :: a in logicalOf' && logicalOf'[a] == k {
      var a :| a in logicalOf && logicalOf[a] == k;
      assert a != id && logicalOf'[a] == k;
    }
  }

  lemma BijectionStays(logicalOf: map<nat, nat>, expected: map<nat, Row>, l: nat, row: Row)
    requires Bijection(logicalOf, expected) && l in expected
    ensures Bijection(logicalOf, expected[l := row])
  {
  }

  lemma SwapRemoveTakesOneOut(live: seq<nat>, i: nat)
    requires i < |live| && Distinct(live)
    ensures Distinct(SwapRemove(live, i)) && |SwapRemove(live, i)| == |live| - 1
    ensures forall id :: id in SwapRemove(live, i) <==> id in live && id != live[i]
  {
    var r, last := SwapRemove(live, i), |live| - 1;
    forall id | id in live && id != live[i] ensures id in r {
      var j :| 0 <= j < |live| && live[j] == id;
      assert r[if j == last then i else j] == id;
    }
  }

  lemma CreateKeepsInv(cfg: Config, s: Shared, d: Draw)
    requires Inv(s) && FreshId(s, d)
    ensures Inv(DoCreate(cfg, s, d))
  {
    hide IdsAgree, Bijection, RowsAsExpected, Added, Counted;
    var l := s.nextLogical + 1;
    var s1 := s.(nextLogical := l);
    assert Inv(s1) && Inv(Failed(s1)) && l !in s.expected;
    hide Inv, Failed;
    if d.begins && d.acts && d.commits {
      var s2 := Added(s1, d.newId, l, Row(cfg.seed, l, cfg.filler, l % 3));
      AddedKeepsInv(s1, d.newId, l, Row(cfg.seed, l, cfg.filler, l % 3));
      CountedKeepsInv(s2, Create);
      assert DoCreate(cfg, s, d) == Counted(s2, Create);
    } else {
      CountedKeepsInv(Failed(s1), Create);
      assert DoCreate(cfg, s, d) == Counted(Failed(s1), Create);
    }
  }

  lemma CountedKeepsInv(s: Shared, c: Class)
    requires Inv(s)
    ensures Inv(Counted(s, c))
  {
  }

  lemma UpdateKeepsInv(cfg: Config, s: Shared, d: Draw)
    requires Inv(s) && s.live != []
    ensures Inv(DoUpdate(cfg, s, d))
  {
    var id := s.live[d.index % |s.live|];
    assert id in s.live;
    var l := s.logicalOf[id];
    BijectionStays(s.logicalOf, s.expected, l, Row(cfg.seed, l, cfg.filler, d.status % 3));
  }

  lemma RemoveKeepsInv(s: Shared, d: Draw)
    requires Inv(s) && s.live != []
    ensures Inv(DoRemove(s, d))
  {
    var i := d.index % |s.live|;
    var id := s.live[i];
    assert id in s.live;
    if d.begins && d.acts && d.commits {
      SwapRemoveTakesOneOut(s.live, i);
      BijectionShrinks(s.logicalOf, s.expected, id);
    }
  }

  lemma SectionKeepsInv(cfg: Config, s: Shared, d: Draw)
    requires Inv(s) && FreshId(s, d)
    ensures Inv(Section(cfg, s, d))
  {
    match Actual(cfg, s, d)
    case Create => CreateKeepsInv(cfg, s, d);
    case Update => UpdateKeepsInv(cfg, s, d);
    case Remove => RemoveKeepsInv(s, d);
    case Read =>
    case Noop =>
  }

  /** Whatever the number of sessions and the order in which they get the mutex. */
  lemma {:induction false} RunKeepsInv(cfg: Config, s: Shared, draws: seq<Draw>)
    requires Inv(s) && EngineIsFresh(cfg, s, draws)
    ensures Inv(Run(cfg, s, draws))
    decreases |draws|
  {
    if draws != [] {
      SectionKeepsInv(cfg, s, draws[0]);
      RunKeepsInv(cfg, Section(cfg, s, draws[0]), draws[1..]);
    }
  }

  // ----- before and after the sessions -----

  lemma AddedKeepsInv(s: Shared, id: nat, l: nat, row: Row)
    requires Inv(s) && id !in s.rows && l !in s.expected && l <= s.nextLogical
    ensures Inv(Added(s, id, l, row))
  {
    assert id !in s.live;
    BijectionGrows(s.logicalOf, s.expected, id, l, row);
  }

  const EMPTY := Shared(map[], [], map[], map[], 0, 0, 0, 0, 0, map[])

  /** The state handed to the sessions: ids[i] is the object of logical id i + 1. */
  function Initial(cfg: Config, ids: seq<nat>): (s: Shared)
    ensures s.live == ids && s.nextLogical == s.created == |ids| && s.deleted == s.errors == s.thrown == 0
  {
    if ids == [] then EMPTY
    else
      var n := |ids|;
      Added(Initial(cfg, ids[..n - 1]).(nextLogical := n), ids[n - 1], n, Row(cfg.seed, n, cfg.filler, n % 3))
  }

  lemma {:induction false} InitialInv(cfg: Config, ids: seq<nat>)
    requires Distinct(ids)
    ensures Inv(Initial(cfg, ids))
    ensures forall l :: l in Initial(cfg, ids).expected ==> l <= |ids|
  {
    if ids != [] {
      var n := |ids|;
      var s := Initial(cfg, ids[..n - 1]).(nextLogical := n);
      InitialInv(cfg, ids[..n - 1]);
      assert ids[n - 1] !in s.live;
      AddedKeepsInv(s, ids[n - 1], n, Row(cfg.seed, n, cfg.filler, n % 3));
    }
  }

  /** The i-th id is the user with logical id i + 1. */
  lemma {:induction false} InitialHolds(cfg: Config, ids: seq<nat>, i: nat)
    requires Distinct(ids) && i < |ids|
    ensures var s, row := Initial(cfg, ids), Row(cfg.seed, i + 1, cfg.filler, (i + 1) % 3);
      && ids[i] in s.rows && s.rows[ids[i]] == row
      && ids[i] in s.logicalOf && s.logicalOf[ids[i]] == i + 1
      && i + 1 in s.expected && s.expected[i + 1] == row
    decreases |ids|
  {
    if i < |ids| - 1 {
      InitialHolds(cfg, ids[..|ids| - 1], i);
    }
  }

  /** The books after any run that starts where the create phase ends: nothing was thrown, ids
      and logical ids are in bijection, and the engine holds exactly the expected values. */
  lemma BooksAreKept(cfg: Config, ids: seq<nat>, draws: seq<Draw>)
    requires Distinct(ids) && EngineIsFresh(cfg, Initial(cfg, ids), draws)
    ensures Inv(Run(cfg, Initial(cfg, ids), draws))
  {
    InitialInv(cfg, ids);
    RunKeepsInv(cfg, Initial(cfg, ids), draws);
  }

  lemma {:induction false} CardinalityOfLive(live: seq<nat>, ids: set<nat>)
    requires Distinct(live) && forall id :: id in ids <==> id in live
    ensures |ids| == |live|
  {
    if live == [] {
      assert ids == {};
    } else {
      var last := |live| - 1;
      var rest := live[..last];
      assert forall id :: id in ids - {live[last]} <==> id in rest by {
        forall id | id in live && id != live[last] ensures id in rest {
          var j :| 0 <= j < |live| && live[j] == id;
          assert rest[j] == id;
        }
      }
      CardinalityOfLive(rest, ids - {live[last]});
    }
  }

  /** The three counts that `run_mixed_oltp_embedded` compares are equal after any run. */
  lemma CountsReconcile(cfg: Config, ids: seq<nat>, draws: seq<Draw>)
    requires Distinct(ids) && EngineIsFresh(cfg, Initial(cfg, ids), draws)
    ensures var s := Run(cfg, Initial(cfg, ids), draws);
      |s.rows| == |s.live| == s.created - s.deleted
  {
    var s := Run(cfg, Initial(cfg, ids), draws);
    InitialInv(cfg, ids);
    RunKeepsInv(cfg, Initial(cfg, ids), draws);
    CardinalityOfLive(s.live, s.rows.Keys);
  }

  // ----- every section is counted once -----

  function CountOf(counts: map<Class, nat>, c: Class): nat {
    if c in counts then counts[c] else 0
  }

  function Total(counts: map<Class, nat>): nat {
    CountOf(counts, Create) + CountOf(counts, Read) + CountOf(counts, Update) + CountOf(counts, Remove)
    + CountOf(counts, Noop)
  }

  lemma CountingAddsOne(s: Shared, c: Class)
    ensures Total(Counted(s, c).counts) == Total(s.counts) + 1
  {
  }

  lemma LiveIdIsKnown(s: Shared, i: nat)
    requires Inv(s) && i < |s.live|
    ensures s.live[i] in s.logicalOf
  {
  }

  lemma CreateIsCounted(cfg: Config, s: Shared, d: Draw)
    ensures DoCreate(cfg, s, d).counts == Counted(s, Create).counts
  {
  }

  lemma ReadIsCounted(s: Shared, d: Draw)
    requires s.live != []
    ensures DoRead(s, d).counts == Counted(s, Read).counts
  {
  }

  lemma UpdateIsCounted(cfg: Config, s: Shared, d: Draw)
    requires s.live != [] && s.live[d.index % |s.live|] in s.logicalOf
    ensures DoUpdate(cfg, s, d).counts == Counted(s, Update).counts
  {
  }

  lemma RemoveIsCounted(s: Shared, d: Draw)
    requires s.live != [] && s.live[d.index % |s.live|] in s.logicalOf
    ensures DoRemove(s, d).counts == Counted(s, Remove).counts
  {
  }

  lemma SectionIsCounted(cfg: Config, s: Shared, d: Draw)
    requires Inv(s)
    ensures Section(cfg, s, d).counts == Counted(s, Actual(cfg, s, d)).counts
  {
    hide Inv, DoCreate, DoRead, DoUpdate, DoRemove, Counted;
    match Actual(cfg, s, d)
    case Create => CreateIsCounted(cfg, s, d);
    case Read => ReadIsCounted(s, d);
    case Update =>
      LiveIdIsKnown(s, d.index % |s.live|);
      UpdateIsCounted(cfg, s, d);
    case Remove =>
      LiveIdIsKnown(s, d.index % |s.live|);
      RemoveIsCounted(s, d);
    case Noop =>
  }

  /** The class counters add up to the number of operations of all sessions. */
  lemma {:induction false} EverySectionIsCounted(cfg: Config, s: Shared, draws: seq<Draw>)
    requires Inv(s) && EngineIsFresh(cfg, s, draws)
    ensures Total(Run(cfg, s, draws).counts) == Total(s.counts) + |draws|
    decreases |draws|
  {
    if draws != [] {
      SectionIsCounted(cfg, s, draws[0]);
      CountingAddsOne(s, Actual(cfg, s, draws[0]));
      SectionKeepsInv(cfg, s, draws[0]);
      EverySectionIsCounted(cfg, Section(cfg, s, draws[0]), draws[1..]);
    }
  }

  // ----- what one section does -----

  predicate SameBooks(s: Shared, s': Shared) {
    s'.rows == s.rows && s'.live == s.live && s'.logicalOf == s.logicalOf && s'.expected == s.expected
  }

  predicate SameNumbers(s: Shared, s': Shared) {
    s'.nextLogical == s.nextLogical && s'.created == s.created && s'.deleted == s.deleted
  }

  predicate OneMoreOf(s: Shared, s': Shared, c: Class) {
    forall k: Class :: CountOf(s'.counts, k) == CountOf(s.counts, k) + if k == c then 1 else 0
  }

  /** The user drawn goes in under the next logical id; when a call fails, only that id is used up. */
  predicate CreateEffect(cfg: Config, s: Shared, d: Draw, s': Shared) {
    var l := s.nextLogical + 1;
    var row := Row(cfg.seed, l, cfg.filler, l % 3);
    && s'.nextLogical == l && s'.deleted == s.deleted && OneMoreOf(s, s', Create)
    && if d.begins && d.acts && d.commits then
         && s'.rows == s.rows[d.newId := row] && s'.expected == s.expected[l := row]
         && s'.logicalOf == s.logicalOf[d.newId := l] && s'.live == s.live + [d.newId]
         && s'.created == s.created + 1 && s'.errors == s.errors
       else
         SameBooks(s, s') && s'.created == s.created && s'.errors == s.errors + 1
  }

  predicate ReadEffect(s: Shared, d: Draw, s': Shared) {
    && SameBooks(s, s') && SameNumbers(s, s') && OneMoreOf(s, s', Read)
    && s'.errors == s.errors + if d.finds && d.acts then 0 else 1
  }

  /** The row and the expected value of the id drawn become the user drawn, and no others change. */
  predicate UpdateEffect(cfg: Config, s: Shared, d: Draw, s': Shared)
    requires s.live != [] && s.live[d.index % |s.live|] in s.logicalOf
  {
    var id := s.live[d.index % |s.live|];
    var l := s.logicalOf[id];
    var row := Row(cfg.seed, l, cfg.filler, d.status % 3);
    && SameNumbers(s, s') && OneMoreOf(s, s', Update)
    && if d.finds && d.begins && d.acts && d.commits then
         && s'.rows == s.rows[id := row] && s'.expected == s.expected[l := row]
         && s'.live == s.live && s'.logicalOf == s.logicalOf && s'.errors == s.errors
       else
         SameBooks(s, s') && s'.errors == s.errors + 1
  }

  /** The last live id takes the place of the i-th. */
  predicate TakenOut(live: seq<nat>, i: nat, live': seq<nat>) {
    && |live'| + 1 == |live|
    && forall j :: 0 <= j < |live'| ==> live'[j] == if j == i then live[|live| - 1] else live[j]
  }

  /** The id drawn leaves the rows, the live ids and both maps, and no other does. */
  predicate RemoveEffect(s: Shared, d: Draw, s': Shared)
    requires s.live != [] && s.live[d.index % |s.live|] in s.logicalOf
  {
    var i := d.index % |s.live|;
    var id := s.live[i];
    && s'.nextLogical == s.nextLogical && s'.created == s.created && OneMoreOf(s, s', Remove)
    && if d.begins && d.acts && d.commits then
         && s'.rows == s.rows - {id} && s'.expected == s.expected - {s.logicalOf[id]}
         && s'.logicalOf == s.logicalOf - {id} && TakenOut(s.live, i, s'.live)
         && s'.deleted == s.deleted + 1 && s'.errors == s.errors
       else
         SameBooks(s, s') && s'.deleted == s.deleted && s'.errors == s.errors + 1
  }

  predicate NoopEffect(s: Shared, s': Shared) {
    SameBooks(s, s') && SameNumbers(s, s') && s'.errors == s.errors && OneMoreOf(s, s', Noop)
  }

  /** One of readsPerWrite + 1 draws is a write; of four writes one creates, two update and one
      removes; and what needs a live id does nothing when there is none. */
  ghost predicate Effect(cfg: Config, s: Shared, d: Draw, s': Shared)
    requires Inv(s)
  {
    && s'.thrown == s.thrown
    && if d.mix % (cfg.readsPerWrite + 1) == 0 && d.pick % 4 == 0 then CreateEffect(cfg, s, d, s')
       else if s.live == [] then NoopEffect(s, s')
       else if d.mix % (cfg.readsPerWrite + 1) != 0 then ReadEffect(s, d, s')
       else
         LiveIdIsKnown(s, d.index % |s.live|);
         if d.pick % 4 == 3 then RemoveEffect(s, d, s') else UpdateEffect(cfg, s, d, s')
  }

  lemma CountedIsOneMore(s: Shared, c: Class)
    ensures OneMoreOf(s, Counted(s, c), c)
  {
  }

  lemma CreateHasEffect(cfg: Config, s: Shared, d: Draw)
    ensures CreateEffect(cfg, s, d, DoCreate(cfg, s, d)) && DoCreate(cfg, s, d).thrown == s.thrown
  {
    CountedIsOneMore(s, Create);
  }

  lemma ReadHasEffect(s: Shared, d: Draw)
    requires s.live != [] && s.live[d.index % |s.live|] in s.rows
    ensures ReadEffect(s, d, DoRead(s, d)) && DoRead(s, d).thrown == s.thrown
  {
    CountedIsOneMore(s, Read);
  }

  lemma UpdateHasEffect(cfg: Config, s: Shared, d: Draw)
    requires s.live != [] && s.live[d.index % |s.live|] in s.logicalOf && s.live[d.index % |s.live|] in s.rows
    ensures UpdateEffect(cfg, s, d, DoUpdate(cfg, s, d)) && DoUpdate(cfg, s, d).thrown == s.thrown
  {
    CountedIsOneMore(s, Update);
  }

  lemma RemoveHasEffect(s: Shared, d: Draw)
    requires s.live != [] && s.live[d.index % |s.live|] in s.logicalOf && s.live[d.index % |s.live|] in s.rows
    ensures RemoveEffect(s, d, DoRemove(s, d)) && DoRemove(s, d).thrown == s.thrown
  {
    hide SwapRemove, OneMoreOf;
    CountedIsOneMore(s, Remove);
    SameCounts(s, DoRemove(s, d), Remove);
    SwapRemoveTakes(s.live, d.index % |s.live|);
  }

  lemma SameCounts(s: Shared, s': Shared, c: Class)
    requires s'.counts == Counted(s, c).counts
    ensures OneMoreOf(s, s', c)
  {
  }

  lemma SwapRemoveTakes(live: seq<nat>, i: nat)
    requires i < |live|
    ensures TakenOut(live, i, SwapRemove(live, i))
  {
  }

  lemma NoopHasEffect(s: Shared)
    ensures NoopEffect(s, Counted(s, Noop)) && Counted(s, Noop).thrown == s.thrown
  {
    CountedIsOneMore(s, Noop);
  }

  /** Every locked section does what its draw says, field by field. */
  lemma SectionHasEffect(cfg: Config, s: Shared, d: Draw)
    requires Inv(s)
    ensures Effect(cfg, s, d, Section(cfg, s, d))
  {
    hide DoCreate, DoRead, DoUpdate, DoRemove, Counted;
    hide CreateEffect, ReadEffect, UpdateEffect, RemoveEffect, NoopEffect;
    hide Bijection, RowsAsExpected;
    CreateHasEffect(cfg, s, d);
    NoopHasEffect(s);
    if s.live != [] {
      assert s.live[d.index % |s.live|] in s.live;
      ReadHasEffect(s, d);
      UpdateHasEffect(cfg, s, d);
      RemoveHasEffect(s, d);
    }
  }

  function Max(a: nat, b: nat): nat {
    if a < b then b else a
  }

  lemma MoreIsFarther(a: nat, b: nat, stride: nat)
    requires a <= b
    ensures a * stride <= b * stride
  {
  }

  // ----- the code -----

  class State {
    var rows: map<nat, Row>
    var liveIds: seq<nat>
    var logicalIdOf: map<nat, nat>
    var expected: map<nat, Row>
    var nextLogicalId: nat
    var created: nat
    var deleted: nat
    var errors: nat
    var thrown: nat
    var byClass: map<Class, nat>

    function Abs(): Shared
      reads this
    {
      Shared(rows, liveIds, logicalIdOf, expected, nextLogicalId, created, deleted, errors, thrown, byClass)
    }

    /** `run_mixed_oltp_embedded`, up to the start of the sessions: the create phase left the
        rows in the engine. */
    constructor (cfg: Config, ids: seq<nat>)
      requires Distinct(ids)
      ensures Abs() == Initial(cfg, ids)
    {
      rows, liveIds, logicalIdOf, expected := map[], [], map[], map[];
      nextLogicalId, created, deleted, errors, thrown, byClass := 0, 0, 0, 0, 0, map[];
      new;
      assert ids[..0] == [];
      for i := 0 to |ids|
        invariant Abs() == Initial(cfg, ids[..i])
      {
        var l := i + 1;
        assert ids[..l][..i] == ids[..i];
        nextLogicalId := l;
        Add(ids[i], l, Row(cfg.seed, l, cfg.filler, l % 3));
      }
      assert ids[..|ids|] == ids;
    }

    method Add(id: nat, l: nat, row: Row)
      modifies this
      ensures Abs() == Added(old(Abs()), id, l, row)
    {
      rows := rows[id := row];
      liveIds := liveIds + [id];
      logicalIdOf := logicalIdOf[id := l];
      expected := expected[l := row];
      created := created + 1;
    }

    method Count(c: Class)
      modifies this`byClass
      ensures Abs() == Counted(old(Abs()), c)
    {
      byClass := byClass[c := (if c in byClass then byClass[c] else 0) + 1];
    }

    // One turn of the loop in `mixed_oltp_worker`, under the mutex, and its four branches.

    method Operate(cfg: Config, d: Draw)
      modifies this
      ensures Abs() == Section(cfg, old(Abs()), d)
      ensures old(Inv(Abs())) ==> Effect(cfg, old(Abs()), d, Abs())
    {
      hide Inv, Effect, DoCreate, DoRead, DoUpdate, DoRemove;
      if Inv(Abs()) {
        SectionHasEffect(cfg, Abs(), d);
      }
      match Actual(cfg, Abs(), d) {
        case Create => OperateCreate(cfg, d);
        case Read => OperateRead(d);
        case Update => OperateUpdate(cfg, d);
        case Remove => OperateRemove(d);
        case Noop => Count(Noop);
      }
    }

    method OperateCreate(cfg: Config, d: Draw)
      modifies this
      ensures Abs() == DoCreate(cfg, old(Abs()), d)
    {
      nextLogicalId := nextLogicalId + 1;
      var row := Row(cfg.seed, nextLogicalId, cfg.filler, nextLogicalId % 3);
      if !d.begins || !d.acts || !d.commits {
        errors := errors + 1;
      } else {
        Add(d.newId, nextLogicalId, row);
      }
      Count(Create);
    }

    method OperateRead(d: Draw)
      requires liveIds != []
      modifies this
      ensures Abs() == DoRead(old(Abs()), d)
    {
      var id := liveIds[d.index % |liveIds|];
      if id !in rows || !d.finds || !d.acts {
        errors := errors + 1;
      }
      Count(Read);
    }

    method OperateUpdate(cfg: Config, d: Draw)
      requires liveIds != []
      modifies this
      ensures Abs() == DoUpdate(cfg, old(Abs()), d)
    {
      var id := liveIds[d.index % |liveIds|];
      if id !in logicalIdOf {
        errors, thrown := errors + 1, thrown + 1;
        return;
      }
      var l := logicalIdOf[id];
      var row := Row(cfg.seed, l, cfg.filler, d.status % 3);
      if id !in rows || !d.finds || !d.begins || !d.acts || !d.commits {
        errors := errors + 1;
      } else {
        rows := rows[id := row];
        expected := expected[l := row];
      }
      Count(Update);
    }

    method OperateRemove(d: Draw)
      requires liveIds != []
      modifies this
      ensures Abs() == DoRemove(old(Abs()), d)
    {
      var idx := d.index % |liveIds|;
      var id := liveIds[idx];
      if id !in rows || !d.begins || !d.acts || !d.commits {
        errors := errors + 1;
      } else {
        rows := rows - {id};
        if id !in logicalIdOf {
          errors, thrown := errors + 1, thrown + 1;
          return;
        }
        expected := expected - {logicalIdOf[id]};
        logicalIdOf := logicalIdOf - {id};
        liveIds := liveIds[idx := liveIds[|liveIds| - 1]];
        liveIds := liveIds[..|liveIds| - 1];
        assert liveIds == SwapRemove(old(liveIds), idx);
        hide SwapRemove;
        deleted := deleted + 1;
      }
      Count(Remove);
    }

    /** The sections of all sessions, in the order in which they get the mutex. */
    method Operations(cfg: Config, draws: seq<Draw>)
      modifies this
      ensures Abs() == Run(cfg, old(Abs()), draws)
    {
      assert draws[0..] == draws;
      for i := 0 to |draws|
        invariant Run(cfg, Abs(), draws[i..]) == Run(cfg, old(Abs()), draws)
      {
        assert draws[i..][1..] == draws[i + 1..];
        Operate(cfg, draws[i]);
      }
    }

    /** The value that the engine holds for a logical id is the expected one. */
    ghost predicate ReadsBack(l: nat)
      reads this
    {
      exists id :: id in logicalIdOf && logicalIdOf[id] == l && id in rows && l in expected && rows[id] == expected[l]
    }

    ghost predicate BackUpTo(surviving: seq<nat>, stride: nat, turns: nat)
      reads this
    {
      forall j: nat :: j < turns && j * stride < |surviving| ==> ReadsBack(surviving[j * stride])
    }

    lemma NothingYet(surviving: seq<nat>, stride: nat)
      ensures BackUpTo(surviving, stride, 0)
    {
    }

    lemma OneMoreSample(surviving: seq<nat>, stride: nat, turns: nat)
      requires turns * stride < |surviving|
      ensures BackUpTo(surviving, stride, turns + 1)
         <==> BackUpTo(surviving, stride, turns) && ReadsBack(surviving[turns * stride])
    {
      hide ReadsBack;
    }

    lemma EverySample(surviving: seq<nat>, stride: nat, turns: nat)
      requires turns * stride >= |surviving|
      ensures BackUpTo(surviving, stride, turns)
         <==> forall j: nat :: j * stride < |surviving| ==> ReadsBack(surviving[j * stride])
    {
      hide ReadsBack;
      forall j: nat | j >= turns ensures j * stride >= |surviving| {
        MoreIsFarther(turns, j, stride);
      }
    }

    lemma KnownReadsBack(l: nat)
      requires Inv(Abs()) && l in expected
      ensures ReadsBack(l)
    {
      var id :| id in logicalIdOf && logicalIdOf[id] == l;
      assert id in rows && rows[id] == expected[l];
    }

    lemma KnownReadBack(ids: seq<nat>)
      requires Inv(Abs()) && forall k :: 0 <= k < |ids| ==> ids[k] in expected
      ensures |rows| == |liveIds| == created - deleted
      ensures forall k :: 0 <= k < |ids| ==> ReadsBack(ids[k])
    {
      CardinalityOfLive(liveIds, rows.Keys);
      forall k | 0 <= k < |ids| ensures ReadsBack(ids[k]) {
        KnownReadsBack(ids[k]);
      }
    }

    lemma LookedUp(objectOf: map<nat, nat>, l: nat)
      requires forall id :: id in logicalIdOf ==> logicalIdOf[id] in objectOf && objectOf[logicalIdOf[id]] == id
      requires forall k :: k in objectOf ==> objectOf[k] in logicalIdOf && logicalIdOf[objectOf[k]] == k
      ensures ReadsBack(l)
         <==> l in objectOf && objectOf[l] in rows && l in expected && rows[objectOf[l]] == expected[l]
    {
    }

    /** The reconciliation: counts, then every stride-th surviving logical id, in the order of
        surviving, read back from the engine. It finds a mismatch exactly when there is one among them,
        and under the invariant there is none. */
    method Reconcile(surviving: seq<nat>) returns (hashMatch: bool)
      requires forall a, b :: a in logicalIdOf && b in logicalIdOf && a != b ==> logicalIdOf[a] != logicalIdOf[b]
      requires forall i :: 0 <= i < |surviving| ==> surviving[i] in expected
      ensures hashMatch <==>
        && |rows| == |liveIds| == created - deleted
        && forall j: nat :: j * Max(1, |surviving| / 100) < |surviving| ==>
             ReadsBack(surviving[j * Max(1, |surviving| / 100)])
      ensures Inv(Abs()) ==> hashMatch
    {
      hide Inv, ReadsBack, BackUpTo;
      var expectedLive := created - deleted;
      var reconciled := |rows| == expectedLive && |liveIds| == expectedLive;
      var objectOf := map id | id in logicalIdOf :: logicalIdOf[id] := id;
      var stride := Max(1, |surviving| / 100);
      var mismatches := 0;
      var i := 0;
      ghost var turns := 0;
      NothingYet(surviving, stride);
      while i < |surviving|
        invariant i == turns * stride
        invariant mismatches == 0 <==> BackUpTo(surviving, stride, turns)
      {
        var l := surviving[i];
        OneMoreSample(surviving, stride, turns);
        LookedUp(objectOf, l);
        if l !in objectOf || objectOf[l] !in rows || rows[objectOf[l]] != expected[l] {
          mismatches := mismatches + 1;
        }
        i := i + stride;
        turns := turns + 1;
      }
      EverySample(surviving, stride, turns);
      hashMatch := reconciled && mismatches == 0;
      if Inv(Abs()) {
        KnownReadBack(surviving);
      }
    }
  }
}
