/** The number generator of loadtests/dataset_user.cpp (splitmix64), and why its numbers never
    repeat within 2^64 draws: the state moves by an odd step, and each part of the mixing can be
    undone, a shifted exclusive or because the difference of two numbers with one image is its own
    shift, and a multiplication because the factor has an inverse modulo 2^64. Unsigned 64-bit
    numbers are written out modulo 2^64. */
module SplitMix64 {
  import opened Arithmetic

  const TWO_TO_64: nat := 0x1_0000_0000_0000_0000
  const GAMMA: nat := 0x9E37_79B9_7F4A_7C15
  const FIRST: nat := 0xBF58_476D_1CE4_E5B9
  const SECOND: nat := 0x94D0_49BB_1331_11EB

  /** The bitwise exclusive or (XorIsBitwise). */
  function Xor(x: nat, y: nat): nat
    decreases x + y
  {
    if x == 0 && y == 0 then 0 else (x + y) % 2 + 2 * Xor(x / 2, y / 2)
  }

  function NextState(state: nat): nat {
    (state + GAMMA) % TWO_TO_64
  }

  /** The state after k numbers. */
  function After(state: nat, k: nat): nat {
    if k == 0 then state else NextState(After(state, k - 1))
  }

  /** `x >> k` (ShiftIsDivision). */
  function Shift(x: nat, k: nat): (r: nat)
    ensures r <= x
    decreases k
  {
    if k == 0 then x else Shift(x / 2, k - 1)
  }

  function XorShift(x: nat, k: nat): nat {
    Xor(x, Shift(x, k))
  }

  function Times(x: nat, c: nat): nat {
    x * c % TWO_TO_64
  }

  function Mix(state: nat): nat {
    XorShift(Times(XorShift(Times(XorShift(state, 30), FIRST), 27), SECOND), 31)
  }

  // ----- the exclusive or -----

  /** Bit i of x. */
  predicate Bit(x: nat, i: nat)
    decreases i
  {
    if i == 0 then x % 2 == 1 else Bit(x / 2, i - 1)
  }

  lemma ParityOfSum(x: nat, y: nat)
    ensures (x + y) % 2 == 1 <==> (x % 2 == 1) != (y % 2 == 1)
  {
  }

  lemma {:induction false} XorIsBitwise(x: nat, y: nat, i: nat)
    ensures Bit(Xor(x, y), i) <==> Bit(x, i) != Bit(y, i)
    decreases i
  {
    XorHalves(x, y);
    hide Xor;
    if i == 0 {
      ParityOfSum(x, y);
    } else {
      XorIsBitwise(x / 2, y / 2, i - 1);
    }
  }

  lemma XorHalves(x: nat, y: nat)
    ensures Xor(x, y) / 2 == Xor(x / 2, y / 2) && Xor(x, y) % 2 == (x + y) % 2
  {
  }

  function Pow2(k: nat): (p: nat)
    ensures p > 0
  {
    if k == 0 then 1 else 2 * Pow2(k - 1)
  }

  lemma {:induction false} XorFits(x: nat, y: nat, k: nat)
    requires x < Pow2(k) && y < Pow2(k)
    ensures Xor(x, y) < Pow2(k)
  {
    if k > 0 {
      XorHalves(x, y);
      XorFits(x / 2, y / 2, k - 1);
    }
  }

  lemma {:induction false} XorSwaps(a: nat, b: nat, c: nat, d: nat)
    requires Xor(a, b) == Xor(c, d)
    ensures Xor(a, c) == Xor(b, d)
    decreases a + b + c + d
  {
    if a + b + c + d > 0 {
      hide Xor;
      XorHalves(a, b);
      XorHalves(c, d);
      XorSwaps(a / 2, b / 2, c / 2, d / 2);
      XorHalves(a, c);
      XorHalves(b, d);
      ParitySwaps(a, b, c, d);
      SameHalves(Xor(a, c), Xor(b, d));
    }
  }

  lemma ParitySwaps(a: nat, b: nat, c: nat, d: nat)
    requires (a + b) % 2 == (c + d) % 2
    ensures (a + c) % 2 == (b + d) % 2
  {
  }

  lemma SameHalves(x: nat, y: nat)
    requires x / 2 == y / 2 && x % 2 == y % 2
    ensures x == y
  {
  }

  lemma {:induction false} XorIsZero(x: nat, y: nat)
    requires Xor(x, y) == 0
    ensures x == y
    decreases x + y
  {
    if x + y > 0 {
      XorHalves(x, y);
      XorIsZero(x / 2, y / 2);
    }
  }

  lemma {:induction false} ShiftIsDivision(x: nat, k: nat)
    ensures Shift(x, k) == x / Pow2(k)
    decreases k
  {
    if k > 0 {
      ShiftIsDivision(x / 2, k - 1);
      DivideByDouble(x, Pow2(k - 1));
    }
  }

  lemma EightMore(k: nat)
    ensures Pow2(k + 8) == 256 * Pow2(k)
  {
    assert Pow2(k + 2) == 2 * Pow2(k + 1) == 4 * Pow2(k);
    assert Pow2(k + 4) == 2 * Pow2(k + 3) == 4 * Pow2(k + 2);
    assert Pow2(k + 6) == 2 * Pow2(k + 5) == 4 * Pow2(k + 4);
    assert Pow2(k + 8) == 2 * Pow2(k + 7) == 4 * Pow2(k + 6);
  }

  /** The powers of two that the code writes as numbers. */
  lemma Powers()
    ensures Pow2(27) == 0x800_0000 && Pow2(30) == 0x4000_0000 && Pow2(31) == 0x8000_0000
    ensures Pow2(64) == TWO_TO_64
  {
    EightMore(0);
    EightMore(8);
    EightMore(16);
    EightMore(24);
    EightMore(32);
    EightMore(40);
    EightMore(48);
    EightMore(56);
  }

  lemma MixIsShifts(state: nat)
    ensures var z1 := Xor(state, state / 0x4000_0000) * FIRST % TWO_TO_64;
      var z2 := Xor(z1, z1 / 0x800_0000) * SECOND % TWO_TO_64;
      Mix(state) == Xor(z2, z2 / 0x8000_0000)
  {
    hide Shift, Xor, Pow2;
    Powers();
    var z1 := Times(XorShift(state, 30), FIRST);
    var z2 := Times(XorShift(z1, 27), SECOND);
    ShiftIsDivision(state, 30);
    ShiftIsDivision(z1, 27);
    ShiftIsDivision(z2, 31);
  }

  lemma {:induction false} XorShifts(x: nat, y: nat, k: nat)
    ensures Xor(Shift(x, k), Shift(y, k)) == Shift(Xor(x, y), k)
    decreases k
  {
    if k > 0 {
      hide Xor;
      XorHalves(x, y);
      XorShifts(x / 2, y / 2, k - 1);
    }
  }

  // ----- each step of the mixing can be undone -----

  /** The difference of two numbers with one image is its own shift, so it is 0. */
  lemma XorShiftIsInjective(x: nat, y: nat, k: nat)
    requires k > 0 && XorShift(x, k) == XorShift(y, k)
    ensures x == y
  {
    hide Xor;
    var d := Xor(x, y);
    XorSwaps(x, Shift(x, k), y, Shift(y, k));
    XorShifts(x, y, k);
    assert d == Shift(d / 2, k - 1) <= d / 2;
    XorIsZero(x, y);
  }

  lemma XorShiftFits(x: nat, k: nat)
    requires x < TWO_TO_64
    ensures XorShift(x, k) < TWO_TO_64
  {
    hide Pow2, Xor;
    Powers();
    XorFits(x, Shift(x, k), 64);
  }

  /** A factor with an inverse loses nothing modulo 2^64. */
  lemma FactorIsInjective(d: int, c: nat, inverse: nat, q: nat, t: int)
    requires c * inverse == 1 + TWO_TO_64 * q
    requires d * c == TWO_TO_64 * t
    ensures d == TWO_TO_64 * (t * inverse - d * q)
  {
    calc {
      TWO_TO_64 * (t * inverse);
      (TWO_TO_64 * t) * inverse;
      (d * c) * inverse;
      d * (c * inverse);
      d * (1 + TWO_TO_64 * q);
      d + TWO_TO_64 * (d * q);
    }
  }

  lemma TimesIsInjective(x: nat, y: nat, c: nat, inverse: nat, q: nat)
    requires x < TWO_TO_64 && y < TWO_TO_64 && Times(x, c) == Times(y, c)
    requires c * inverse == 1 + TWO_TO_64 * q
    ensures x == y
  {
    var t := x * c / TWO_TO_64 - y * c / TWO_TO_64;
    assert (x - y) * c == TWO_TO_64 * t;
    FactorIsInjective(x - y, c, inverse, q, t);
    MultipleIsFar(TWO_TO_64, t * inverse - (x - y) * q);
  }

  lemma MixFits(state: nat)
    ensures Mix(state) < TWO_TO_64
  {
    hide XorShift;
    XorShiftFits(Times(XorShift(Times(XorShift(state, 30), FIRST), 27), SECOND), 31);
  }

  /** Two states never give one number: every one of the 2^64 numbers comes from one state. */
  lemma MixIsInjective(s: nat, t: nat)
    requires s < TWO_TO_64 && t < TWO_TO_64 && Mix(s) == Mix(t)
    ensures s == t
  {
    hide XorShift, Times;
    var s1, t1 := XorShift(s, 30), XorShift(t, 30);
    var s2, t2 := Times(s1, FIRST), Times(t1, FIRST);
    var s3, t3 := XorShift(s2, 27), XorShift(t2, 27);
    TimesFits(s1, t1, FIRST);
    XorShiftFits(s, 30);
    XorShiftFits(t, 30);
    XorShiftFits(s2, 27);
    XorShiftFits(t2, 27);
    XorShiftIsInjective(Times(s3, SECOND), Times(t3, SECOND), 31);
    TimesIsInjective(s3, t3, SECOND, 0x3196_42B2_D24D_8EC3, 2077064247507883091);
    XorShiftIsInjective(s2, t2, 27);
    TimesIsInjective(s1, t1, FIRST, 0x96DE_1B17_3F11_9089, 8125545580553827436);
    XorShiftIsInjective(s, t, 30);
  }

  lemma TimesFits(x: nat, y: nat, c: nat)
    ensures Times(x, c) < TWO_TO_64 && Times(y, c) < TWO_TO_64
  {
  }

  // ----- the numbers of one generator -----

  lemma {:induction false} AfterIs(state: nat, k: nat) returns (laps: nat)
    ensures state + k * GAMMA == After(state, k) + TWO_TO_64 * laps
    ensures k > 0 ==> After(state, k) < TWO_TO_64
  {
    if k == 0 {
      laps := 0;
    } else {
      var laps' := AfterIs(state, k - 1);
      laps := laps' + (After(state, k - 1) + GAMMA) / TWO_TO_64;
    }
  }

  lemma StatesDiffer(state: nat, j: nat, k: nat)
    requires j < k < j + TWO_TO_64
    ensures After(state, j) != After(state, k)
  {
    var lapsJ := AfterIs(state, j);
    var lapsK := AfterIs(state, k);
    if After(state, j) == After(state, k) {
      assert (k - j) * GAMMA == TWO_TO_64 * (lapsK - lapsJ);
      FactorIsInjective(k - j, GAMMA, 0xF1DE_83E1_9937_733D, 10771413168148108919, lapsK - lapsJ);
      MultipleIsFar(TWO_TO_64, (lapsK - lapsJ) * 0xF1DE_83E1_9937_733D - (k - j) * 10771413168148108919);
    }
  }

  /** From any seed, the j-th and the k-th number differ unless 2^64 draws lie between them. */
  lemma DrawsNeverRepeat(state: nat, j: nat, k: nat)
    requires 0 < j < k < j + TWO_TO_64
    ensures Mix(After(state, j)) != Mix(After(state, k))
  {
    hide Mix, NextState;
    var _ := AfterIs(state, j);
    var _ := AfterIs(state, k);
    StatesDiffer(state, j, k);
    if Mix(After(state, j)) == Mix(After(state, k)) {
      MixIsInjective(After(state, j), After(state, k));
    }
  }

  class SplitMix {
    var state: nat

    constructor (seed: nat)
      ensures state == seed
    {
      state := seed;
    }

    /** `splitmix64_next`. The last exclusive or needs no reduction: MixFits. */
    method Next() returns (z: nat)
      modifies this
      ensures state == NextState(old(state)) && z == Mix(state)
      ensures z < TWO_TO_64
    {
      hide Mix, Shift, Xor;
      state := (state + 0x9E3779B97F4A7C15) % TWO_TO_64;
      MixFits(state);
      MixIsShifts(state);
      z := state;
      z := Xor(z, z / 0x4000_0000) * 0xBF58476D1CE4E5B9 % TWO_TO_64;
      z := Xor(z, z / 0x800_0000) * 0x94D049BB133111EB % TWO_TO_64;
      z := Xor(z, z / 0x8000_0000);
    }
  }
}
