/** The ownership tree of the cascade_delete workload (loadtests/target_embedded.cpp). */
module Hierarchy {
  // It is built from the leaves up and from the last sibling to the first, in batches. The engine
  // is a log of created nodes; a commit makes everything so far durable.

  import opened Arithmetic
  import opened Text

  /** Object ids are not zero: zero is the empty reference. */
  datatype Node = Node(id: nat, logical: nat, firstChild: nat, nextSibling: nat)

  function Ids(log: seq<Node>): (ids: seq<nat>)
    ensures |ids| == |log| && forall i :: 0 <= i < |log| ==> ids[i] == log[i].id
  {
    seq(|log|, i requires 0 <= i < |log| => log[i].id)
  }

  predicate Knows(log: seq<Node>, id: nat) {
    id == 0 || exists i :: 0 <= i < |log| && log[i].id == id
  }

  /** Ids are fresh and not zero. */
  predicate FreshIds(log: seq<Node>) {
    && (forall i :: 0 <= i < |log| ==> log[i].id != 0)
    && (forall i, j :: 0 <= i < j < |log| ==> log[i].id != log[j].id)
  }

  /** References point only to nodes created earlier. */
  predicate BackReferences(log: seq<Node>) {
    forall i :: 0 <= i < |log| ==> Knows(log[..i], log[i].firstChild) && Knows(log[..i], log[i].nextSibling)
  }

  lemma ZeroIsKnown(log: seq<Node>)
    ensures Knows(log, 0)
  {
  }

  lemma KnowsMore(log: seq<Node>, more: seq<Node>, id: nat)
    requires Knows(log, id)
    ensures Knows(log + more, id)
  {
    if id != 0 {
      var i :| 0 <= i < |log| && log[i].id == id;
      assert (log + more)[i].id == id;
    }
  }

  // ----- what a subtree looks like in the log -----

  /** Nodes of a full tree of this depth and width, and of k such trees side by side. */
  function Size(depth: nat, width: nat): (n: nat)
    ensures n > 0
    decreases depth, 0
  {
    1 + if depth == 0 then 0 else ForestSize(depth - 1, width, width)
  }

  function ForestSize(depth: nat, width: nat, k: nat): nat
    decreases depth, 1, k
  {
    if k == 0 then 0 else ForestSize(depth, width, k - 1) + Size(depth, width)
  }

  /** The log holds one tree: its children first, then its root, which points to next. */
  predicate IsTree(log: seq<Node>, depth: nat, width: nat, next: nat)
    decreases depth, 0
  {
    && |log| == Size(depth, width)
    && var root, children := log[|log| - 1], log[..|log| - 1];
    && root.nextSibling == next
    && if depth == 0 then root.firstChild == 0
       else IsForest(children, depth - 1, width, width, root.firstChild)
  }

  /** The log holds k trees, from the last sibling to the first; head is the first sibling. */
  predicate IsForest(log: seq<Node>, depth: nat, width: nat, k: nat, head: nat)
    decreases depth, 1, k
  {
    && |log| == ForestSize(depth, width, k)
    && if k == 0 then head == 0
       else
         var m := ForestSize(depth, width, k - 1);
         var later, tree := log[..m], log[m..];
         head == tree[|tree| - 1].id
         && IsForest(later, depth, width, k - 1, tree[|tree| - 1].nextSibling)
         && IsTree(tree, depth, width, tree[|tree| - 1].nextSibling)
  }

  lemma NoTreeYet(depth: nat, width: nat)
    ensures IsForest([], depth, width, 0, 0) && ForestSize(depth, width, 0) == 0
  {
  }

  /** One more tree in front of k siblings. */
  lemma ForestGrows(later: seq<Node>, tree: seq<Node>, depth: nat, width: nat, k: nat, head: nat)
    requires IsForest(later, depth, width, k, head) && IsTree(tree, depth, width, head)
    ensures IsForest(later + tree, depth, width, k + 1, tree[|tree| - 1].id)
    ensures ForestSize(depth, width, k + 1) == ForestSize(depth, width, k) + Size(depth, width)
  {
    var log := later + tree;
    assert log[..|later|] == later && log[|later|..] == tree;
  }

  // ----- how many nodes -----

  function Power(w: nat, e: nat): nat {
    if e == 0 then 1 else w * Power(w, e - 1)
  }

  /** 1 + w + … + w^d. */
  function GeometricSum(w: nat, d: nat): nat {
    if d == 0 then 1 else GeometricSum(w, d - 1) + Power(w, d)
  }

  lemma {:induction false} ForestIsProduct(depth: nat, width: nat, k: nat)
    ensures ForestSize(depth, width, k) == k * Size(depth, width)
  {
    if k > 0 {
      ForestIsProduct(depth, width, k - 1);
      assert k * Size(depth, width) == (k - 1) * Size(depth, width) + Size(depth, width);
    }
  }

  lemma Distribute(w: nat, a: nat, b: nat)
    ensures w * (a + b) == w * a + w * b
  {
  }

  lemma {:induction false} ShiftedSum(w: nat, d: nat)
    ensures GeometricSum(w, d + 1) == 1 + w * GeometricSum(w, d)
  {
    assert Power(w, d + 1) == w * Power(w, d);
    if d > 0 {
      ShiftedSum(w, d - 1);
      Distribute(w, GeometricSum(w, d - 1), Power(w, d));
    }
  }

  /** A tree of depth d and width w has exactly 1 + w + … + w^d nodes. */
  lemma {:induction false} SizeIsGeometric(d: nat, w: nat)
    ensures Size(d, w) == GeometricSum(w, d)
  {
    if d > 0 {
      ForestIsProduct(d - 1, w, w);
      SizeIsGeometric(d - 1, w);
      ShiftedSum(w, d - 1);
    }
  }

  // ----- who owns whom -----

  function One(id: nat): multiset<nat> {
    if id == 0 then multiset{} else multiset{id}
  }

  /** All references in the log. */
  function References(log: seq<Node>): multiset<nat> {
    if log == [] then multiset{}
    else References(log[..|log| - 1]) + One(log[|log| - 1].firstChild) + One(log[|log| - 1].nextSibling)
  }

  lemma {:induction false} ReferencesAppend(a: seq<Node>, b: seq<Node>)
    ensures References(a + b) == References(a) + References(b)
  {
    if b == [] {
      assert a + b == a;
    } else {
      assert (a + b)[..|a + b| - 1] == a + b[..|b| - 1];
      ReferencesAppend(a, b[..|b| - 1]);
    }
  }

  function IdBag(log: seq<Node>): multiset<nat> {
    multiset(Ids(log))
  }

  lemma IdBagAppend(a: seq<Node>, b: seq<Node>)
    ensures IdBag(a + b) == IdBag(a) + IdBag(b)
  {
    assert Ids(a + b) == Ids(a) + Ids(b);
  }

  lemma {:induction false} TreeReferences(log: seq<Node>, depth: nat, width: nat, next: nat)
    requires IsTree(log, depth, width, next)
    requires forall i :: 0 <= i < |log| ==> log[i].id != 0
    ensures References(log) + multiset{log[|log| - 1].id} == IdBag(log) + One(next)
    decreases depth, 0
  {
    var root, children := log[|log| - 1], log[..|log| - 1];
    assert log == children + [root];
    IdBagAppend(children, [root]);
    assert Ids([root]) == [root.id];
    var r, head, bag := References(children), One(root.firstChild), IdBag(children);
    if depth == 0 {
      assert children == [] && Ids(children) == [];
      assert r + head == bag;
    } else {
      ForestReferences(children, depth - 1, width, width, root.firstChild);
    }
    RootCounted(r, head, One(next), multiset{root.id}, bag);
  }

  lemma RootCounted(r: multiset<nat>, head: multiset<nat>, next: multiset<nat>, root: multiset<nat>,
                    bag: multiset<nat>)
    requires r + head == bag
    ensures r + head + next + root == bag + root + next
  {
  }

  lemma {:induction false} ForestReferences(log: seq<Node>, depth: nat, width: nat, k: nat, head: nat)
    requires IsForest(log, depth, width, k, head)
    requires forall i :: 0 <= i < |log| ==> log[i].id != 0
    ensures References(log) + One(head) == IdBag(log)
    decreases depth, 1, k
  {
    if k == 0 {
      assert Ids(log) == [];
    } else {
      var m := ForestSize(depth, width, k - 1);
      var later, tree := log[..m], log[m..];
      var h := tree[|tree| - 1].nextSibling;
      assert log == later + tree;
      ForestReferences(later, depth, width, k - 1, h);
      TreeReferences(tree, depth, width, h);
      ReferencesAppend(later, tree);
      IdBagAppend(later, tree);
      Cancel(References(later), References(tree), One(h), One(head), IdBag(later), IdBag(tree));
    }
  }

  lemma Cancel(ra: multiset<nat>, rb: multiset<nat>, h: multiset<nat>, head: multiset<nat>,
               a: multiset<nat>, b: multiset<nat>)
    requires ra + h == a && rb + head == b + h
    ensures ra + rb + head == a + b
  {
    assert ra + rb + head == ra + (b + h) == (ra + h) + b;
  }

  lemma {:induction false} BagOfDistinct(log: seq<Node>, id: nat)
    requires FreshIds(log)
    ensures IdBag(log)[id] == if exists i :: 0 <= i < |log| && log[i].id == id then 1 else 0
  {
    if log != [] {
      var rest, last := log[..|log| - 1], log[|log| - 1];
      assert log == rest + [last];
      IdBagAppend(rest, [last]);
      assert Ids([last]) == [last.id];
      BagOfDistinct(rest, id);
    }
  }

  /** Every node but the root is referenced exactly once, by one field of one node. */
  lemma EveryNodeHasOneOwner(log: seq<Node>, depth: nat, width: nat, i: nat)
    requires IsTree(log, depth, width, 0) && FreshIds(log) && i < |log|
    ensures References(log)[log[i].id] == if i == |log| - 1 then 0 else 1
  {
    TreeReferences(log, depth, width, 0);
    BagOfDistinct(log, log[i].id);
    var root := log[|log| - 1].id;
    assert (References(log) + multiset{root})[log[i].id] == IdBag(log)[log[i].id];
  }

  // ----- following the references -----

  /** The ids met when the first child and then the next sibling of id are followed in the log;
      both were created before the node that refers to them. */
  function Walk(log: seq<Node>, id: nat): seq<nat> {
    if id == 0 || log == [] then []
    else
      var rest, last := log[..|log| - 1], log[|log| - 1];
      if last.id == id then [id] + Walk(rest, last.firstChild) + Walk(rest, last.nextSibling)
      else Walk(rest, id)
  }

  lemma {:induction false} WalkSkips(log: seq<Node>, more: seq<Node>, id: nat)
    requires forall i :: 0 <= i < |more| ==> more[i].id != id
    ensures Walk(log + more, id) == Walk(log, id)
  {
    if more == [] {
      assert log + more == log;
    } else {
      var rest := more[..|more| - 1];
      assert (log + more)[..|log + more| - 1] == log + rest;
      assert (log + more)[|log + more| - 1] == more[|more| - 1];
      WalkSkips(log, rest, id);
    }
  }

  lemma KnownIsNotMadeLater(log: seq<Node>, more: seq<Node>, id: nat)
    requires Knows(log, id) && FreshIds(log + more)
    ensures Walk(log + more, id) == Walk(log, id)
  {
    if id != 0 {
      var i :| 0 <= i < |log| && log[i].id == id;
      assert (log + more)[i].id == id;
      forall j | 0 <= j < |more| ensures more[j].id != id {
        assert (log + more)[|log| + j].id == more[j].id;
      }
      WalkSkips(log, more, id);
    }
  }

  lemma FreshPrefix(a: seq<Node>, b: seq<Node>)
    requires FreshIds(a + b)
    ensures FreshIds(a)
  {
    assert forall i :: 0 <= i < |a| ==> (a + b)[i] == a[i];
  }

  lemma HeadIsKnown(log: seq<Node>, seg: seq<Node>, depth: nat, width: nat, k: nat, head: nat)
    requires IsForest(seg, depth, width, k, head)
    ensures Knows(log + seg, head)
  {
    if k > 0 {
      var m := ForestSize(depth, width, k - 1);
      assert seg[m..][|seg[m..]| - 1] == seg[|seg| - 1];
      assert (log + seg)[|log + seg| - 1] == seg[|seg| - 1];
    }
  }

  lemma WalkOfRoot(log: seq<Node>, root: Node)
    requires root.id != 0
    ensures multiset(Walk(log + [root], root.id))
         == multiset{root.id} + multiset(Walk(log, root.firstChild)) + multiset(Walk(log, root.nextSibling))
  {
    assert (log + [root])[..|log|] == log && (log + [root])[|log|] == root;
  }

  lemma RootThenChildren(log: seq<Node>, children: seq<Node>, root: Node)
    requires FreshIds(log + children + [root]) && Knows(log, root.nextSibling)
    requires multiset(Walk(log + children, root.firstChild)) == IdBag(children)
    ensures multiset(Walk(log + children + [root], root.id))
         == IdBag(children + [root]) + multiset(Walk(log, root.nextSibling))
  {
    FreshPrefix(log + children, [root]);
    assert (log + children + [root])[|log + children|] == root;
    WalkOfRoot(log + children, root);
    KnownIsNotMadeLater(log, children, root.nextSibling);
    IdBagAppend(children, [root]);
    assert Ids([root]) == [root.id];
  }

  /** From the root of a tree one meets each node of the tree once, and what follows it. */
  lemma {:induction false} WalkTree(log: seq<Node>, seg: seq<Node>, depth: nat, width: nat, next: nat)
    requires IsTree(seg, depth, width, next) && FreshIds(log + seg) && Knows(log, next)
    ensures multiset(Walk(log + seg, seg[|seg| - 1].id)) == IdBag(seg) + multiset(Walk(log, next))
    decreases depth, 0
  {
    var root, children := seg[|seg| - 1], seg[..|seg| - 1];
    assert seg == children + [root];
    Regroup(log, children, [root]);
    FreshPrefix(log + children, [root]);
    if depth == 0 {
      LeafWalk(log, children);
    } else {
      WalkForest(log, children, depth - 1, width, width, root.firstChild);
    }
    RootThenChildren(log, children, root);
  }

  lemma LeafWalk(log: seq<Node>, children: seq<Node>)
    requires children == []
    ensures multiset(Walk(log + children, 0)) == IdBag(children)
  {
    assert Ids(children) == [];
  }

  lemma {:induction false} WalkForest(log: seq<Node>, seg: seq<Node>, depth: nat, width: nat, k: nat, head: nat)
    requires IsForest(seg, depth, width, k, head) && FreshIds(log + seg)
    ensures multiset(Walk(log + seg, head)) == IdBag(seg)
    decreases depth, 1, k
  {
    if k == 0 {
      assert Ids(seg) == [];
    } else {
      var m := ForestSize(depth, width, k - 1);
      var later, tree := seg[..m], seg[m..];
      var h := tree[|tree| - 1].nextSibling;
      assert seg == later + tree;
      Regroup(log, later, tree);
      FreshPrefix(log + later, tree);
      HeadIsKnown(log, later, depth, width, k - 1, h);
      WalkForest(log, later, depth, width, k - 1, h);
      WalkTree(log + later, tree, depth, width, h);
      IdBagAppend(later, tree);
    }
  }

  /** Following the owned references from the root meets every node once. */
  lemma EveryNodeIsReachedOnce(log: seq<Node>, depth: nat, width: nat)
    requires IsTree(log, depth, width, 0) && FreshIds(log)
    ensures multiset(Walk(log, log[|log| - 1].id)) == IdBag(log)
    ensures forall i :: 0 <= i < |log| ==> multiset(Walk(log, log[|log| - 1].id))[log[i].id] == 1
  {
    assert [] + log == log;
    WalkTree([], log, depth, width, 0);
    forall i | 0 <= i < |log| ensures IdBag(log)[log[i].id] == 1 {
      BagOfDistinct(log, log[i].id);
    }
  }

  // ----- durability -----

  /** Every reference in the log is to a node in it. */
  predicate Closed(log: seq<Node>) {
    forall i :: 0 <= i < |log| ==> Knows(log, log[i].firstChild) && Knows(log, log[i].nextSibling)
  }

  /** Wherever a commit falls, no node is durable without the nodes it refers to. */
  lemma EveryPrefixIsClosed(log: seq<Node>, n: nat)
    requires BackReferences(log) && n <= |log|
    ensures Closed(log[..n])
  {
    var durable := log[..n];
    forall i | 0 <= i < n
      ensures Knows(durable, durable[i].firstChild) && Knows(durable, durable[i].nextSibling)
    {
      assert log[..i] + durable[i..] == durable;
      KnowsMore(log[..i], durable[i..], durable[i].firstChild);
      KnowsMore(log[..i], durable[i..], durable[i].nextSibling);
    }
  }

  // ----- the code -----

  const MAX_UINT64: nat := 0xFFFF_FFFF_FFFF_FFFF

  datatype BuildResult = BuildResult(id: nat, nodeCount: nat)

  function Last(commits: seq<nat>): nat {
    if commits == [] then 0 else commits[|commits| - 1]
  }

  /** Each commit makes one full batch durable. */
  predicate FullBatches(commits: seq<nat>, batch: nat) {
    forall i :: 0 <= i < |commits| ==> commits[i] == Last(commits[..i]) + batch
  }

  predicate Numbered(log: seq<Node>) {
    forall i :: 0 <= i < |log| ==> log[i].logical == i + 1
  }

  /** The engine as this workload sees it, with the two counters that the recursion shares. */
  class Builder {
    var log: seq<Node>
    /** The length of the log at each commit. */
    var commits: seq<nat>
    var nextLogicalId: nat
    var createdSinceCommit: nat
    /** History: a call of the engine has failed. */
    ghost var failed: bool

    ghost predicate Valid()
      reads this
    {
      && FreshIds(log) && BackReferences(log)
      && forall i :: 0 <= i < |commits| ==> commits[i] <= |log|
    }

    /** Between two nodes: the counters agree with the log, and the batch is not full. */
    ghost predicate Ready(batch: nat)
      reads this
    {
      && Valid() && !failed
      && nextLogicalId == |log| && Numbered(log)
      && FullBatches(commits, batch)
      && createdSinceCommit == |log| - Last(commits) < batch
    }

    constructor ()
      ensures log == [] && commits == [] && nextLogicalId == 0 && createdSinceCommit == 0 && !failed
    {
      log, commits, nextLogicalId, createdSinceCommit, failed := [], [], 0, 0, false;
    }

    /** `Database::create`: the engine fails, or stores the node under an id it never gave. */
    method Create(logical: nat, firstChild: nat, nextSibling: nat) returns (created: Option<nat>)
      requires Valid() && Knows(log, firstChild) && Knows(log, nextSibling)
      modifies this`log, this`failed
      ensures Valid() && failed == (old(failed) || created.None?)
      ensures match created {
          case Some(id) => log == old(log) + [Node(id, logical, firstChild, nextSibling)]
          case None => log == old(log)
        }
    {
      if * {
        failed := true;
        return None;
      }
      AnIdIsFresh(log);
      var id :| id != 0 && !Knows(log, id);
      AppendedIsValid(log, Node(id, logical, firstChild, nextSibling));
      log := log + [Node(id, logical, firstChild, nextSibling)];
      created := Some(id);
    }

    /** `Transaction::commit`: the engine fails, or makes everything so far durable. */
    method Commit() returns (ok: bool)
      requires Valid()
      modifies this`commits, this`failed
      ensures Valid() && failed == (old(failed) || !ok)
      ensures commits == if ok then old(commits) + [|log|] else old(commits)
    {
      ok := *;
      if ok {
        commits := commits + [|log|];
      } else {
        failed := true;
      }
    }

    /** `Database::begin`. */
    method Begin() returns (ok: bool)
      modifies this`failed
      ensures failed == (old(failed) || !ok)
    {
      ok := *;
      if !ok {
        failed := true;
      }
    }

    /** The children first, then the node, then a commit if the batch is full. */
    method BuildSubtree(depth: nat, width: nat, nextSibling: nat, batch: nat)
      returns (built: Option<BuildResult>, ghost made: seq<Node>)
      requires Ready(batch) && Knows(log, nextSibling)
      modifies this
      ensures Valid() && log == old(log) + made
      ensures built.None? <==> failed
      ensures built.Some? ==>
        && Ready(batch)
        && IsTree(made, depth, width, nextSibling)
        && built.value == BuildResult(made[|made| - 1].id, Size(depth, width))
      decreases depth, 0
    {
      hide IsForest, IsTree, ForestSize, FullBatches, Numbered, BackReferences, FreshIds, Knows;
      var childrenHead, descendants := 0, 0;
      ghost var children: seq<Node> := [];
      ZeroIsKnown(log);
      if depth > 0 {
        var ok;
        ok, childrenHead, descendants, children := BuildChildren(depth - 1, width, batch);
        if !ok {
          return None, children;
        }
        HeadIsKnown(old(log), children, depth - 1, width, width, childrenHead);
      }
      KnowsMore(old(log), children, nextSibling);
      built, made := CreateNode(childrenHead, nextSibling, descendants, batch);
      Regroup(old(log), children, made);
      if built.Some? {
        assert made == [made[0]];
        RootOnTop(children, made[0], depth, width);
      }
      made := children + made;
    }

    /** The children, from the last to the first: each is given its next sibling. */
    method BuildChildren(depth: nat, width: nat, batch: nat)
      returns (ok: bool, head: nat, descendants: nat, ghost made: seq<Node>)
      requires Ready(batch)
      modifies this
      ensures Valid() && log == old(log) + made
      ensures ok <==> !failed
      ensures ok ==>
        && Ready(batch)
        && IsForest(made, depth, width, width, head)
        && descendants == ForestSize(depth, width, width)
      decreases depth, 1
    {
      hide IsForest, IsTree, Size, ForestSize, FullBatches, Numbered, BackReferences, FreshIds, Knows;
      ok, head, descendants, made := true, 0, 0, [];
      NoTreeYet(depth, width);
      for i := 0 to width
        invariant ok && Ready(batch) && log == old(log) + made
        invariant IsForest(made, depth, width, i, head)
        invariant descendants == ForestSize(depth, width, i)
      {
        HeadIsKnown(old(log), made, depth, width, i, head);
        var built;
        ghost var tree: seq<Node>;
        built, tree := BuildSubtree(depth, width, head, batch);
        Regroup(old(log), made, tree);
        if built.Some? {
          ForestGrows(made, tree, depth, width, i, head);
          head := built.value.id;
          descendants := descendants + built.value.nodeCount;
        }
        made := made + tree;
        if built == None {
          ok := false;
          return;
        }
      }
    }

    method CreateNode(firstChild: nat, nextSibling: nat, descendants: nat, batch: nat)
      returns (built: Option<BuildResult>, ghost made: seq<Node>)
      requires Ready(batch) && Knows(log, firstChild) && Knows(log, nextSibling)
      modifies this
      ensures Valid() && log == old(log) + made
      ensures built.None? <==> failed
      ensures built.Some? ==>
        && Ready(batch)
        && |made| == 1 && made[0].firstChild == firstChild && made[0].nextSibling == nextSibling
        && built.value == BuildResult(made[0].id, descendants + 1)
    {
      hide Knows, FreshIds, BackReferences, FullBatches;
      built, made := None, [];
      nextLogicalId := nextLogicalId + 1;
      var created := Create(nextLogicalId, firstChild, nextSibling);
      if created == None {
        return;
      }
      made := [log[|log| - 1]];
      createdSinceCommit := createdSinceCommit + 1;
      var ok := CommitWhenFull(batch);
      if ok {
        built := Some(BuildResult(created.value, descendants + 1));
      }
    }

    method CommitWhenFull(batch: nat) returns (ok: bool)
      requires Valid() && !failed && FullBatches(commits, batch)
      requires 0 < createdSinceCommit == |log| - Last(commits) <= batch
      modifies this`commits, this`createdSinceCommit, this`failed
      ensures Valid() && (ok <==> !failed)
      ensures ok ==> FullBatches(commits, batch) && createdSinceCommit == |log| - Last(commits) < batch
    {
      ok := true;
      if createdSinceCommit >= batch {
        ghost var before := commits;
        ok := Commit();
        if !ok {
          return;
        }
        OneMoreBatch(before, |log|, batch);
        ok := Begin();
        if ok {
          createdSinceCommit := 0;
        }
      }
    }

    /** The create phase of `run_cascade_delete_embedded`, which passes depth 4. */
    method CreateHierarchy(depth: nat, width: nat, batch: nat)
      returns (built: Option<BuildResult>, ghost batches: seq<nat>)
      requires log == [] && commits == [] && nextLogicalId == 0 && createdSinceCommit == 0 && !failed
      modifies this
      ensures Valid()
      ensures built.None? <==> failed
      ensures built.Some? ==>
        && IsWholeTree(log, depth, width, built.value) && Numbered(log)
        && FullBatches(batches, BatchLimit(batch)) && commits == batches + [|log|]
      ensures built.Some? && batch > 0 ==>
        && |commits| == |log| / batch + 1 && commits[|log| / batch] == |log|
        && forall i: nat :: i < |log| / batch ==> commits[i] == (i + 1) * batch
      ensures built.Some? && batch == 0 && |log| < 0xFFFF_FFFF_FFFF_FFFF ==> commits == [|log|]
    {
      ghost var made: seq<Node>;
      built, batches := None, commits;
      var begun := Begin();
      if !begun {
        return;
      }
      built, made := BuildSubtree(depth, width, 0, BatchLimit(batch));
      batches := commits;
      if built.Some? {
        TreeIsWhole(log, made, depth, width, built.value);
        BatchesAreMultiples(batches, |log|, BatchLimit(batch));
        var committed := Commit();
        if !committed {
          built := None;
        }
      }
    }
  }

  lemma {:induction false} MultipleAt(commits: seq<nat>, batch: nat, i: nat)
    requires FullBatches(commits, batch) && i < |commits|
    ensures commits[i] == (i + 1) * batch
  {
    if i > 0 {
      MultipleAt(commits, batch, i - 1);
      assert Last(commits[..i]) == commits[i - 1];
      assert i * batch + batch == (i + 1) * batch;
    } else {
      assert commits[..0] == [];
    }
  }

  /** After n nodes there has been one commit for each full batch. */
  lemma BatchesAreMultiples(commits: seq<nat>, n: nat, limit: nat)
    requires limit > 0 && FullBatches(commits, limit) && 0 <= n - Last(commits) < limit
    ensures |commits| == n / limit && forall i: nat :: i < |commits| ==> commits[i] == (i + 1) * limit
    ensures n < limit ==> commits == []
  {
    hide FullBatches;
    forall i: nat | i < |commits| ensures commits[i] == (i + 1) * limit {
      MultipleAt(commits, limit, i);
    }
    assert Last(commits) == limit * |commits|;
    DivisionIs(n, limit, |commits|, n - Last(commits));
    if commits != [] {
      assert commits[0] == 1 * limit;
      MultipleIsFar(limit, |commits|);
    }
  }

  /** One tree, all of it counted, and its root known. */
  predicate IsWholeTree(log: seq<Node>, depth: nat, width: nat, built: BuildResult) {
    IsTree(log, depth, width, 0) && built == BuildResult(log[|log| - 1].id, GeometricSum(width, depth))
  }

  lemma TreeIsWhole(log: seq<Node>, made: seq<Node>, depth: nat, width: nat, built: BuildResult)
    requires log == [] + made && IsTree(made, depth, width, 0)
    requires built == BuildResult(made[|made| - 1].id, Size(depth, width))
    ensures IsWholeTree(log, depth, width, built)
  {
    assert log == made;
    SizeIsGeometric(depth, width);
  }

  function BatchLimit(batch: nat): (limit: nat)
    ensures limit > 0
  {
    if batch == 0 then MAX_UINT64 else batch
  }

  lemma OneMoreBatch(commits: seq<nat>, end: nat, batch: nat)
    requires FullBatches(commits, batch) && end == Last(commits) + batch
    ensures FullBatches(commits + [end], batch)
  {
    var more := commits + [end];
    assert more[..|commits|] == commits;
    forall i | 0 <= i < |commits| ensures more[i] == Last(more[..i]) + batch {
      assert more[..i] == commits[..i];
    }
  }

  lemma RootOnTop(children: seq<Node>, root: Node, depth: nat, width: nat)
    requires if depth == 0 then children == [] && root.firstChild == 0
             else IsForest(children, depth - 1, width, width, root.firstChild)
    ensures IsTree(children + [root], depth, width, root.nextSibling)
  {
    assert (children + [root])[..|children|] == children;
  }

  lemma {:induction false} AnIdIsFresh(log: seq<Node>)
    ensures exists id :: id != 0 && !Knows(log, id)
  {
    var id := FreshId(log);
    assert id != 0 && !Knows(log, id);
  }

  function FreshId(log: seq<Node>): (id: nat)
    ensures id != 0 && forall i :: 0 <= i < |log| ==> log[i].id < id
  {
    if log == [] then 1
    else
      var rest := FreshId(log[..|log| - 1]);
      var last := log[|log| - 1].id;
      if rest > last then rest else last + 1
  }

  lemma AppendedIsValid(log: seq<Node>, node: Node)
    requires FreshIds(log) && BackReferences(log)
    requires node.id != 0 && !Knows(log, node.id)
    requires Knows(log, node.firstChild) && Knows(log, node.nextSibling)
    ensures FreshIds(log + [node]) && BackReferences(log + [node])
  {
    var more := log + [node];
    assert more[..|log|] == log;
    forall i | 0 <= i < |log| ensures more[..i] == log[..i] && more[i] == log[i] {
    }
  }
}
