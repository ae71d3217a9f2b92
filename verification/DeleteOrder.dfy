/** The orders in which the delete phase removes objects: `reorder_for_delete` in
    loadtests/target_embedded.cpp. The stride is 7 there; everything here holds for any. */
module DeleteOrder {
  import opened Arithmetic
  import opened Text

  datatype Order = Forward | Reverse | Interleaved

  // ----- the order, as positions -----

  predicate Below(ps: seq<nat>, n: nat) {
    forall k :: 0 <= k < |ps| ==> ps[k] < n
  }

  /** Positions i, i + stride, i + 2·stride, … below n. */
  function Sweep(n: nat, stride: nat, i: nat): (ps: seq<nat>)
    requires stride > 0
    decreases n - i
  {
    if i >= n then [] else [i] + Sweep(n, stride, i + stride)
  }

  /** The sweeps from this offset on. */
  function Sweeps(n: nat, stride: nat, offset: nat): (ps: seq<nat>)
    requires stride > 0
    decreases stride - offset
  {
    if offset >= stride || offset >= n then []
    else Sweep(n, stride, offset) + Sweeps(n, stride, offset + 1)
  }

  lemma {:induction false} SweepBelow(n: nat, stride: nat, i: nat)
    requires stride > 0
    ensures Below(Sweep(n, stride, i), n)
    decreases n - i
  {
    if i < n {
      SweepBelow(n, stride, i + stride);
    }
  }

  lemma {:induction false} SweepsBelow(n: nat, stride: nat, offset: nat)
    requires stride > 0
    ensures Below(Sweeps(n, stride, offset), n)
    decreases stride - offset
  {
    if offset < stride && offset < n {
      SweepBelow(n, stride, offset);
      SweepsBelow(n, stride, offset + 1);
    }
  }

  function Up(n: nat): (ps: seq<nat>)
    ensures |ps| == n && forall k :: 0 <= k < n ==> ps[k] == k
  {
    seq(n, k => k)
  }

  function Down(n: nat): (ps: seq<nat>)
    ensures |ps| == n && forall k :: 0 <= k < n ==> ps[k] == n - 1 - k
  {
    seq(n, k requires 0 <= k < n => n - 1 - k)
  }

  function Positions(n: nat, order: Order, stride: nat): (ps: seq<nat>)
    requires stride > 0
    ensures Below(ps, n)
  {
    match order
    case Forward => Up(n)
    case Reverse => Down(n)
    case Interleaved =>
      SweepsBelow(n, stride, 0);
      Sweeps(n, stride, 0)
  }

  function Pick<T>(ids: seq<T>, ps: seq<nat>): (picked: seq<T>)
    requires Below(ps, |ids|)
    ensures |picked| == |ps| && forall k :: 0 <= k < |ps| ==> picked[k] == ids[ps[k]]
  {
    seq(|ps|, k requires 0 <= k < |ps| => ids[ps[k]])
  }

  // ----- the code -----

  method ReorderForDelete<T(0)>(ids: seq<T>, order: Order, stride: nat) returns (reordered: seq<T>)
    requires stride > 0
    ensures reordered == Pick(ids, Positions(|ids|, order, stride))
    ensures order.Forward? ==> reordered == ids
    ensures order.Reverse? ==>
      |reordered| == |ids| && forall k :: 0 <= k < |ids| ==> reordered[k] == ids[|ids| - 1 - k]
  {
    match order {
      case Forward =>
        reordered := ids;
      case Reverse =>
        reordered := [];
        for k := 0 to |ids|
          invariant reordered == Pick(ids, Down(|ids|))[..k]
        {
          reordered := reordered + [ids[|ids| - 1 - k]];
        }
      case Interleaved =>
        reordered := Interleave(ids, stride);
    }
  }

  method Interleave<T>(ids: seq<T>, stride: nat) returns (interleaved: seq<T>)
    requires stride > 0
    ensures Below(Sweeps(|ids|, stride, 0), |ids|) && interleaved == Pick(ids, Sweeps(|ids|, stride, 0))
  {
    interleaved := [];
    ghost var n := |ids|;
    ghost var done: seq<nat> := [];
    var offset := 0;
    while offset < stride && offset < |ids|
      invariant offset <= stride
      invariant Below(done, n)
      invariant interleaved == Pick(ids, done)
      invariant done + Sweeps(n, stride, offset) == Sweeps(n, stride, 0)
    {
      ghost var sweep := Sweep(n, stride, offset);
      Regroup(done, sweep, Sweeps(n, stride, offset + 1));
      interleaved := SweepOnce(ids, stride, offset, interleaved, done);
      done := done + sweep;
      offset := offset + 1;
    }
  }

  /** The inner loop: one sweep, appended to what the sweeps before it gave. */
  method SweepOnce<T>(ids: seq<T>, stride: nat, offset: nat, before: seq<T>, ghost done: seq<nat>)
    returns (interleaved: seq<T>)
    requires stride > 0
    requires Below(done, |ids|)
    requires before == Pick(ids, done)
    ensures Below(done + Sweep(|ids|, stride, offset), |ids|)
    ensures interleaved == Pick(ids, done + Sweep(|ids|, stride, offset))
  {
    interleaved := before;
    ghost var n := |ids|;
    ghost var swept: seq<nat> := done;
    var i := offset;
    while i < |ids|
      invariant Below(swept, n)
      invariant interleaved == Pick(ids, swept)
      invariant swept + Sweep(n, stride, i) == done + Sweep(n, stride, offset)
      decreases |ids| - i
    {
      Regroup(swept, [i], Sweep(n, stride, i + stride));
      interleaved := interleaved + [ids[i]];
      swept := swept + [i];
      i := i + stride;
    }
  }

  // ----- every position comes once -----

  function OneIf(b: bool): nat {
    if b then 1 else 0
  }

  /** How often a position comes. */
  function Visits(ps: seq<nat>, p: nat): nat {
    if ps == [] then 0 else OneIf(ps[0] == p) + Visits(ps[1..], p)
  }

  lemma {:induction false} VisitsInBag(ps: seq<nat>, p: nat)
    ensures Visits(ps, p) == multiset(ps)[p]
  {
    if ps != [] {
      VisitsInBag(ps[1..], p);
      assert ps == [ps[0]] + ps[1..];
    }
  }

  lemma {:induction false} VisitsAdd(a: seq<nat>, b: seq<nat>, p: nat)
    ensures Visits(a + b, p) == Visits(a, p) + Visits(b, p)
  {
    if a == [] {
      assert a + b == b;
    } else {
      assert (a + b)[1..] == a[1..] + b;
      VisitsAdd(a[1..], b, p);
    }
  }

  predicate OnSweep(n: nat, stride: nat, i: nat, p: nat)
    requires stride > 0
  {
    i <= p < n && (p - i) % stride == 0
  }

  lemma Remainder(x: nat, m: nat, q: nat, r: nat)
    requires m > 0 && r < m && x == q * m + r
    ensures x % m == r
  {
    DivisionIs(x, m, q, r);
  }

  lemma OneStride(d: nat, stride: nat)
    requires stride > 0
    ensures (d + stride) % stride == d % stride
  {
    assert d + stride == (d / stride + 1) * stride + d % stride;
    Remainder(d + stride, stride, d / stride + 1, d % stride);
  }

  lemma StepAlong(n: nat, stride: nat, i: nat, p: nat)
    requires stride > 0 && i < n
    ensures OnSweep(n, stride, i, p) <==> p == i || OnSweep(n, stride, i + stride, p)
  {
    if i <= p < i + stride {
      Remainder(p - i, stride, 0, p - i);
    } else if p >= i + stride {
      OneStride(p - i - stride, stride);
    }
  }

  lemma {:induction false} SweepVisits(n: nat, stride: nat, i: nat, p: nat, sweep: seq<nat>)
    requires stride > 0 && sweep == Sweep(n, stride, i)
    ensures Visits(sweep, p) == OneIf(OnSweep(n, stride, i, p))
    decreases n - i
  {
    if i < n {
      var rest := Sweep(n, stride, i + stride);
      StepAlong(n, stride, i, p);
      SweepVisits(n, stride, i + stride, p, rest);
      VisitsAdd([i], rest, p);
    }
  }

  /** The sweep from an offset visits the positions with that residue. */
  lemma SweepIsResidue(n: nat, stride: nat, offset: nat, p: nat)
    requires offset < stride
    ensures OnSweep(n, stride, offset, p) <==> p < n && p % stride == offset
  {
    if p < offset {
      Remainder(p, stride, 0, p);
    } else {
      if p % stride == offset {
        Remainder(p - offset, stride, p / stride, 0);
      }
      if (p - offset) % stride == 0 {
        Remainder(p, stride, (p - offset) / stride, offset);
      }
    }
  }

  lemma FirstSweepVisits(n: nat, stride: nat, offset: nat, p: nat)
    requires offset < stride
    ensures Visits(Sweep(n, stride, offset), p) == OneIf(p < n && p % stride == offset)
  {
    SweepVisits(n, stride, offset, p, Sweep(n, stride, offset));
    SweepIsResidue(n, stride, offset, p);
  }

  lemma ResidueIsSmall(p: nat, stride: nat)
    requires stride > 0
    ensures p % stride < stride && p % stride <= p
  {
    if p < stride {
      Remainder(p, stride, 0, p);
    }
  }

  lemma {:induction false} SweepsVisit(n: nat, stride: nat, offset: nat, p: nat)
    requires stride > 0
    ensures Visits(Sweeps(n, stride, offset), p) == OneIf(p < n && offset <= p % stride)
    decreases stride - offset
  {
    if offset < stride && offset < n {
      FirstSweepVisits(n, stride, offset, p);
      SweepsVisit(n, stride, offset + 1, p);
      VisitsAdd(Sweep(n, stride, offset), Sweeps(n, stride, offset + 1), p);
    } else {
      ResidueIsSmall(p, stride);
    }
  }

  /** Whatever the order and the stride, each position below n comes once, and no other. */
  lemma EachPositionOnce(n: nat, order: Order, stride: nat, p: nat)
    requires stride > 0
    ensures Visits(Positions(n, order, stride), p) == OneIf(p < n)
  {
    match order {
      case Forward => UpVisits(n, p);
      case Reverse => DownVisits(n, p);
      case Interleaved => SweepsVisit(n, stride, 0, p);
    }
  }

  lemma {:induction false} UpVisits(n: nat, p: nat)
    ensures Visits(Up(n), p) == OneIf(p < n)
  {
    if n > 0 {
      assert Up(n) == Up(n - 1) + [n - 1];
      VisitsAdd(Up(n - 1), [n - 1], p);
      UpVisits(n - 1, p);
    }
  }

  lemma {:induction false} DownVisits(n: nat, p: nat)
    ensures Visits(Down(n), p) == OneIf(p < n)
  {
    if n > 0 {
      assert Down(n) == [n - 1] + Down(n - 1);
      VisitsAdd([n - 1], Down(n - 1), p);
      DownVisits(n - 1, p);
    }
  }

  // ----- so the ids are permuted -----

  lemma TakenOut(left: seq<nat>, p: nat, right: seq<nat>, ps: seq<nat>)
    requires multiset([p] + ps) == multiset(left + ([p] + right))
    ensures multiset(ps) == multiset(left + right)
  {
    var a: multiset<nat>, b: multiset<nat> := multiset(ps), multiset(left + right);
    assert multiset([p] + ps) == a + multiset{p};
    assert multiset(left + ([p] + right)) == b + multiset{p};
    forall x: nat ensures a[x] == b[x] {
      assert (a + multiset{p})[x] == (b + multiset{p})[x];
    }
  }

  lemma PickAppends<T>(ids: seq<T>, ps: seq<nat>, qs: seq<nat>)
    requires Below(ps, |ids|)
    requires Below(qs, |ids|)
    ensures Pick(ids, ps + qs) == Pick(ids, ps) + Pick(ids, qs)
  {
  }

  lemma IndexIn(qs: seq<nat>, p: nat) returns (j: nat)
    requires p in multiset(qs)
    ensures j < |qs| && qs == qs[..j] + ([p] + qs[j + 1..])
  {
    j :| 0 <= j < |qs| && qs[j] == p;
  }

  lemma {:induction false} PickRespectsBags<T>(ids: seq<T>, ps: seq<nat>, qs: seq<nat>)
    requires multiset(ps) == multiset(qs)
    requires Below(ps, |ids|)
    requires Below(qs, |ids|)
    ensures multiset(Pick(ids, ps)) == multiset(Pick(ids, qs))
    decreases |ps|
  {
    if ps == [] {
      assert |qs| == |multiset(qs)| == 0;
    } else {
      var p := ps[0];
      var j := IndexIn(qs, p);
      PickMoves(ids, p, ps[1..], qs[..j], qs[j + 1..], ps, qs);
      PickRespectsBags(ids, ps[1..], qs[..j] + qs[j + 1..]);
    }
  }

  lemma PickMoves<T>(ids: seq<T>, p: nat, ps: seq<nat>, left: seq<nat>, right: seq<nat>,
                     all: seq<nat>, others: seq<nat>)
    requires all == [p] + ps && others == left + ([p] + right) && multiset(all) == multiset(others)
    requires p < |ids| && Below(ps, |ids|) && Below(left, |ids|) && Below(right, |ids|)
    ensures multiset(ps) == multiset(left + right)
    ensures multiset(Pick(ids, all)) == multiset(Pick(ids, ps)) + multiset{ids[p]}
    ensures multiset(Pick(ids, others)) == multiset(Pick(ids, left + right)) + multiset{ids[p]}
  {
    TakenOut(left, p, right, ps);
    PickAppends(ids, [p], ps);
    PickAppends(ids, [p], right);
    PickAppends(ids, left, [p] + right);
    PickAppends(ids, left, right);
    assert Pick(ids, [p]) == [ids[p]];
  }

  /** The delete order is a permutation of the ids: each one is removed exactly once. */
  lemma DeleteOrderIsPermutation<T>(ids: seq<T>, order: Order, stride: nat)
    requires stride > 0
    ensures |Pick(ids, Positions(|ids|, order, stride))| == |ids|
    ensures multiset(Pick(ids, Positions(|ids|, order, stride))) == multiset(ids)
  {
    var n := |ids|;
    var ps := Positions(n, order, stride);
    var visited: multiset<nat>, all: multiset<nat> := multiset(ps), multiset(Up(n));
    forall p: nat ensures visited[p] == all[p] {
      EachPositionOnce(n, order, stride, p);
      UpVisits(n, p);
      VisitsInBag(ps, p);
      VisitsInBag(Up(n), p);
    }
    assert visited == all;
    PickRespectsBags(ids, ps, Up(n));
    assert Pick(ids, Up(n)) == ids;
    assert |ps| == |visited| == |all| == n;
  }

  // ----- and swept residue by residue, upwards -----

  predicate Before(stride: nat, p: nat, q: nat)
    requires stride > 0
  {
    p % stride < q % stride || (p % stride == q % stride && p < q)
  }

  lemma OnlyVisits(n: nat, stride: nat, offset: nat, k: nat)
    requires stride > 0 && k < |Sweeps(n, stride, offset)|
    ensures offset <= Sweeps(n, stride, offset)[k] % stride
  {
    var p := Sweeps(n, stride, offset)[k];
    VisitsInBag(Sweeps(n, stride, offset), p);
    SweepsVisit(n, stride, offset, p);
  }

  lemma {:induction false} SweepStartsAt(n: nat, stride: nat, i: nat, k: nat)
    requires stride > 0 && k < |Sweep(n, stride, i)|
    ensures Sweep(n, stride, i)[k] >= i
    decreases n - i
  {
    if k > 0 {
      SweepStartsAt(n, stride, i + stride, k - 1);
    }
  }

  lemma {:induction false} SweepRises(n: nat, stride: nat, i: nat, j: nat, k: nat)
    requires stride > 0 && j < k < |Sweep(n, stride, i)|
    ensures Sweep(n, stride, i)[j] < Sweep(n, stride, i)[k]
    decreases n - i
  {
    var rest := Sweep(n, stride, i + stride);
    if j == 0 {
      SweepStartsAt(n, stride, i + stride, k - 1);
    } else {
      SweepRises(n, stride, i + stride, j - 1, k - 1);
    }
  }

  lemma OnSweepVisits(n: nat, stride: nat, offset: nat, k: nat)
    requires offset < stride && k < |Sweep(n, stride, offset)|
    ensures Sweep(n, stride, offset)[k] % stride == offset
  {
    var p := Sweep(n, stride, offset)[k];
    VisitsInBag(Sweep(n, stride, offset), p);
    FirstSweepVisits(n, stride, offset, p);
  }

  /** One whole sweep after another: the interleaved order rises by residue, then by position. */
  lemma {:induction false} SweepsRise(n: nat, stride: nat, offset: nat, j: nat, k: nat)
    requires stride > 0 && j < k < |Sweeps(n, stride, offset)|
    ensures Before(stride, Sweeps(n, stride, offset)[j], Sweeps(n, stride, offset)[k])
    decreases stride - offset
  {
    var m := |Sweep(n, stride, offset)|;
    if j < m {
      OnSweepVisits(n, stride, offset, j);
    }
    if k < m {
      OnSweepVisits(n, stride, offset, k);
      SweepRises(n, stride, offset, j, k);
    } else {
      OnlyVisits(n, stride, offset + 1, k - m);
      if j >= m {
        SweepsRise(n, stride, offset + 1, j - m, k - m);
      }
    }
  }
}
