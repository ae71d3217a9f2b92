/** Where the constants of SHA-256 come from (sections 4.2.2 and 5.3.3 of FIPS 180-4): the first
    32 bits of the fractional parts of the cube roots of the first 64 primes, and of the square
    roots of the first 8. The tables hold the roots times 2^32, rounded down, so that each entry is
    checked by multiplying it out; the primes are checked by trial division, which below 19 * 19
    needs no divisor above 17. */
module Sha256Constants {
  import opened Arithmetic
  import opened Sha256Standard

  const TWO_TO_32: nat := 0x1_0000_0000
  const TWO_TO_64: nat := 0x1_0000_0000_0000_0000
  const TWO_TO_96: nat := 0x1_0000_0000_0000_0000_0000_0000

  // ----- the first 64 primes -----

  predicate IsPrime(n: nat) {
    n >= 2 && forall d :: 2 <= d < n ==> n % d != 0
  }

  const PRIMES: seq<nat> :=
    [2, 3, 5, 7, 11, 13, 17, 19] +
    [23, 29, 31, 37, 41, 43, 47, 53] +
    [59, 61, 67, 71, 73, 79, 83, 89] +
    [97, 101, 103, 107, 109, 113, 127, 131] +
    [137, 139, 149, 151, 157, 163, 167, 173] +
    [179, 181, 191, 193, 197, 199, 211, 223] +
    [227, 229, 233, 239, 241, 251, 257, 263] +
    [269, 271, 277, 281, 283, 293, 307, 311]

  /** No prime below 19, other than n, divides n. */
  predicate PassesTrial(n: nat) {
    && n >= 2
    && (n % 2 != 0 || n == 2) && (n % 3 != 0 || n == 3) && (n % 5 != 0 || n == 5) && (n % 7 != 0 || n == 7)
    && (n % 11 != 0 || n == 11) && (n % 13 != 0 || n == 13) && (n % 17 != 0 || n == 17)
  }

  lemma DividesThrough(n: nat, d: nat, q: nat)
    requires 0 < q && 0 < d && n % d == 0 && d % q == 0
    ensures n % q == 0
  {
    var a, b := n / d, d / q;
    assert n == d * a && d == q * b;
    assert n == q * (b * a);
    MultipleIsDivisible(q, b * a);
  }

  /** A number from 2 to 18 is divided by a prime below 19. */
  lemma SmallFactor(d: nat) returns (q: nat)
    requires 2 <= d < 19
    ensures q in {2, 3, 5, 7, 11, 13, 17} && d % q == 0
  {
    q := if d % 2 == 0 then 2 else if d % 3 == 0 then 3 else if d % 5 == 0 then 5 else if d % 7 == 0 then 7
         else if d % 11 == 0 then 11 else if d % 13 == 0 then 13 else 17;
  }

  lemma Cofactor(n: nat, d: nat) returns (e: nat)
    requires 2 <= d < n && n % d == 0
    ensures n == d * e && 2 <= e < n && n % e == 0
  {
    e := n / d;
    assert n == d * e;
    assert n == e * d;
    MultipleIsDivisible(e, d);
  }

  /** Below 19 * 19 trial division by the primes below 19 is enough. */
  lemma TrialIsEnough(n: nat)
    requires n < 361
    ensures PassesTrial(n) <==> IsPrime(n)
  {
    if PassesTrial(n) && !IsPrime(n) {
      var d :| 2 <= d < n && n % d == 0;
      var e := Cofactor(n, d);
      if d >= 19 && e >= 19 {
        AtLeast(d, e);
      }
      var f := if d < 19 then d else e;
      var q := SmallFactor(f);
      DividesThrough(n, f, q);
    }
  }

  lemma AtLeast(d: nat, e: nat)
    requires d >= 19 && e >= 19
    ensures d * e >= 361
  {
  }

  /** From p on, the next prime is q. */
  predicate Consecutive(p: nat, q: nat) {
    p < q && PassesTrial(p) && PassesTrial(q) && NonePasses(p + 1, q)
  }

  predicate NonePasses(a: nat, b: nat)
    decreases b - a
  {
    a >= b || (!PassesTrial(a) && NonePasses(a + 1, b))
  }

  lemma {:induction false} NoPrimeWithin(a: nat, b: nat, n: nat)
    requires NonePasses(a, b) && a <= n < b <= 361
    ensures !IsPrime(n)
    decreases b - a
  {
    if n == a {
      TrialIsEnough(n);
    } else {
      NoPrimeWithin(a + 1, b, n);
    }
  }

  // ----- the tables -----

  /** The cube root of the t-th prime, times 2^32, rounded down. */
  const CUBE_ROOTS: seq<nat> :=
    [0x1428a2f98, 0x171374491, 0x1b5c0fbcf, 0x1e9b5dba5, 0x23956c25b, 0x259f111f1, 0x2923f82a4, 0x2ab1c5ed5] +
    [0x2d807aa98, 0x312835b01, 0x3243185be, 0x3550c7dc3, 0x372be5d74, 0x380deb1fe, 0x39bdc06a7, 0x3c19bf174] +
    [0x3e49b69c1, 0x3efbe4786, 0x40fc19dc6, 0x4240ca1cc, 0x42de92c6f, 0x44a7484aa, 0x45cb0a9dc, 0x476f988da] +
    [0x4983e5152, 0x4a831c66d, 0x4b00327c8, 0x4bf597fc7, 0x4c6e00bf3, 0x4d5a79147, 0x506ca6351, 0x514292967] +
    [0x527b70a85, 0x52e1b2138, 0x54d2c6dfc, 0x553380d13, 0x5650a7354, 0x5766a0abb, 0x581c2c92e, 0x592722c85] +
    [0x5a2bfe8a1, 0x5a81a664b, 0x5c24b8b70, 0x5c76c51a3, 0x5d192e819, 0x5d6990624, 0x5f40e3585, 0x6106aa070] +
    [0x619a4c116, 0x61e376c08, 0x62748774c, 0x634b0bcb5, 0x6391c0cb3, 0x64ed8aa4a, 0x65b9cca4f, 0x6682e6ff3] +
    [0x6748f82ee, 0x678a5636f, 0x684c87814, 0x68cc70208, 0x690befffa, 0x6a4506ceb, 0x6bef9a3f7, 0x6c67178f2]

  const SQUARE_ROOTS: seq<nat> := [
    0x16a09e667, 0x1bb67ae85, 0x23c6ef372, 0x2a54ff53a, 0x3510e527f, 0x39b05688c, 0x41f83d9ab, 0x45be0cd19]

  predicate IsCubeRoot(n: nat, p: nat) {
    n * n * n <= p * TWO_TO_96 < (n + 1) * (n + 1) * (n + 1)
  }

  predicate IsSquareRoot(n: nat, p: nat) {
    n * n <= p * TWO_TO_64 < (n + 1) * (n + 1)
  }

  lemma TableSizes()
    ensures |PRIMES| == |CUBE_ROOTS| == |K| == 64
  {
  }

  /** The t-th prime follows the one before it, its cube root is the one in the table, and the t-th
      constant of the standard is the fraction of that root. */
  predicate Derived(t: nat)
    requires t < 64
  {
    TableSizes();
    && (if t == 0 then PRIMES[t] == 2 else Consecutive(PRIMES[t - 1], PRIMES[t]))
    && IsCubeRoot(CUBE_ROOTS[t], PRIMES[t])
    && K[t] as nat == CUBE_ROOTS[t] % TWO_TO_32
  }

  lemma PrimesOfRow0()
    ensures PRIMES[0] == 2 && Consecutive(PRIMES[0], PRIMES[1])
    ensures Consecutive(PRIMES[1], PRIMES[2]) && Consecutive(PRIMES[2], PRIMES[3])
    ensures Consecutive(PRIMES[3], PRIMES[4]) && Consecutive(PRIMES[4], PRIMES[5])
    ensures Consecutive(PRIMES[5], PRIMES[6]) && Consecutive(PRIMES[6], PRIMES[7])
  {
  }

  lemma RootsOfRow0()
    ensures IsCubeRoot(CUBE_ROOTS[0], PRIMES[0]) && IsCubeRoot(CUBE_ROOTS[1], PRIMES[1])
    ensures IsCubeRoot(CUBE_ROOTS[2], PRIMES[2]) && IsCubeRoot(CUBE_ROOTS[3], PRIMES[3])
    ensures IsCubeRoot(CUBE_ROOTS[4], PRIMES[4]) && IsCubeRoot(CUBE_ROOTS[5], PRIMES[5])
    ensures IsCubeRoot(CUBE_ROOTS[6], PRIMES[6]) && IsCubeRoot(CUBE_ROOTS[7], PRIMES[7])
  {
  }

  lemma WordsOfRow0()
    ensures K[0] as nat == CUBE_ROOTS[0] % TWO_TO_32 && K[1] as nat == CUBE_ROOTS[1] % TWO_TO_32
    ensures K[2] as nat == CUBE_ROOTS[2] % TWO_TO_32 && K[3] as nat == CUBE_ROOTS[3] % TWO_TO_32
    ensures K[4] as nat == CUBE_ROOTS[4] % TWO_TO_32 && K[5] as nat == CUBE_ROOTS[5] % TWO_TO_32
    ensures K[6] as nat == CUBE_ROOTS[6] % TWO_TO_32 && K[7] as nat == CUBE_ROOTS[7] % TWO_TO_32
  {
  }

  lemma PrimesOfRow1()
    ensures Consecutive(PRIMES[7], PRIMES[8]) && Consecutive(PRIMES[8], PRIMES[9])
    ensures Consecutive(PRIMES[9], PRIMES[10]) && Consecutive(PRIMES[10], PRIMES[11])
    ensures Consecutive(PRIMES[11], PRIMES[12]) && Consecutive(PRIMES[12], PRIMES[13])
    ensures Consecutive(PRIMES[13], PRIMES[14]) && Consecutive(PRIMES[14], PRIMES[15])
  {
  }

  lemma RootsOfRow1()
    ensures IsCubeRoot(CUBE_ROOTS[8], PRIMES[8]) && IsCubeRoot(CUBE_ROOTS[9], PRIMES[9])
    ensures IsCubeRoot(CUBE_ROOTS[10], PRIMES[10]) && IsCubeRoot(CUBE_ROOTS[11], PRIMES[11])
    ensures IsCubeRoot(CUBE_ROOTS[12], PRIMES[12]) && IsCubeRoot(CUBE_ROOTS[13], PRIMES[13])
    ensures IsCubeRoot(CUBE_ROOTS[14], PRIMES[14]) && IsCubeRoot(CUBE_ROOTS[15], PRIMES[15])
  {
  }

  lemma WordsOfRow1()
    ensures K[8] as nat == CUBE_ROOTS[8] % TWO_TO_32 && K[9] as nat == CUBE_ROOTS[9] % TWO_TO_32
    ensures K[10] as nat == CUBE_ROOTS[10] % TWO_TO_32 && K[11] as nat == CUBE_ROOTS[11] % TWO_TO_32
    ensures K[12] as nat == CUBE_ROOTS[12] % TWO_TO_32 && K[13] as nat == CUBE_ROOTS[13] % TWO_TO_32
    ensures K[14] as nat == CUBE_ROOTS[14] % TWO_TO_32 && K[15] as nat == CUBE_ROOTS[15] % TWO_TO_32
  {
  }

  lemma PrimesOfRow2()
    ensures Consecutive(PRIMES[15], PRIMES[16]) && Consecutive(PRIMES[16], PRIMES[17])
    ensures Consecutive(PRIMES[17], PRIMES[18]) && Consecutive(PRIMES[18], PRIMES[19])
    ensures Consecutive(PRIMES[19], PRIMES[20]) && Consecutive(PRIMES[20], PRIMES[21])
    ensures Consecutive(PRIMES[21], PRIMES[22]) && Consecutive(PRIMES[22], PRIMES[23])
  {
  }

  lemma RootsOfRow2()
    ensures IsCubeRoot(CUBE_ROOTS[16], PRIMES[16]) && IsCubeRoot(CUBE_ROOTS[17], PRIMES[17])
    ensures IsCubeRoot(CUBE_ROOTS[18], PRIMES[18]) && IsCubeRoot(CUBE_ROOTS[19], PRIMES[19])
    ensures IsCubeRoot(CUBE_ROOTS[20], PRIMES[20]) && IsCubeRoot(CUBE_ROOTS[21], PRIMES[21])
    ensures IsCubeRoot(CUBE_ROOTS[22], PRIMES[22]) && IsCubeRoot(CUBE_ROOTS[23], PRIMES[23])
  {
  }

  lemma WordsOfRow2()
    ensures K[16] as nat == CUBE_ROOTS[16] % TWO_TO_32 && K[17] as nat == CUBE_ROOTS[17] % TWO_TO_32
    ensures K[18] as nat == CUBE_ROOTS[18] % TWO_TO_32 && K[19] as nat == CUBE_ROOTS[19] % TWO_TO_32
    ensures K[20] as nat == CUBE_ROOTS[20] % TWO_TO_32 && K[21] as nat == CUBE_ROOTS[21] % TWO_TO_32
    ensures K[22] as nat == CUBE_ROOTS[22] % TWO_TO_32 && K[23] as nat == CUBE_ROOTS[23] % TWO_TO_32
  {
  }

  lemma PrimesOfRow3()
    ensures Consecutive(PRIMES[23], PRIMES[24]) && Consecutive(PRIMES[24], PRIMES[25])
    ensures Consecutive(PRIMES[25], PRIMES[26]) && Consecutive(PRIMES[26], PRIMES[27])
    ensures Consecutive(PRIMES[27], PRIMES[28]) && Consecutive(PRIMES[28], PRIMES[29])
    ensures Consecutive(PRIMES[29], PRIMES[30]) && Consecutive(PRIMES[30], PRIMES[31])
  {
  }

  lemma RootsOfRow3()
    ensures IsCubeRoot(CUBE_ROOTS[24], PRIMES[24]) && IsCubeRoot(CUBE_ROOTS[25], PRIMES[25])
    ensures IsCubeRoot(CUBE_ROOTS[26], PRIMES[26]) && IsCubeRoot(CUBE_ROOTS[27], PRIMES[27])
    ensures IsCubeRoot(CUBE_ROOTS[28], PRIMES[28]) && IsCubeRoot(CUBE_ROOTS[29], PRIMES[29])
    ensures IsCubeRoot(CUBE_ROOTS[30], PRIMES[30]) && IsCubeRoot(CUBE_ROOTS[31], PRIMES[31])
  {
  }

  lemma WordsOfRow3()
    ensures K[24] as nat == CUBE_ROOTS[24] % TWO_TO_32 && K[25] as nat == CUBE_ROOTS[25] % TWO_TO_32
    ensures K[26] as nat == CUBE_ROOTS[26] % TWO_TO_32 && K[27] as nat == CUBE_ROOTS[27] % TWO_TO_32
    ensures K[28] as nat == CUBE_ROOTS[28] % TWO_TO_32 && K[29] as nat == CUBE_ROOTS[29] % TWO_TO_32
    ensures K[30] as nat == CUBE_ROOTS[30] % TWO_TO_32 && K[31] as nat == CUBE_ROOTS[31] % TWO_TO_32
  {
  }

  lemma PrimesOfRow4()
    ensures Consecutive(PRIMES[31], PRIMES[32]) && Consecutive(PRIMES[32], PRIMES[33])
    ensures Consecutive(PRIMES[33], PRIMES[34]) && Consecutive(PRIMES[34], PRIMES[35])
    ensures Consecutive(PRIMES[35], PRIMES[36]) && Consecutive(PRIMES[36], PRIMES[37])
    ensures Consecutive(PRIMES[37], PRIMES[38]) && Consecutive(PRIMES[38], PRIMES[39])
  {
  }

  lemma RootsOfRow4()
    ensures IsCubeRoot(CUBE_ROOTS[32], PRIMES[32]) && IsCubeRoot(CUBE_ROOTS[33], PRIMES[33])
    ensures IsCubeRoot(CUBE_ROOTS[34], PRIMES[34]) && IsCubeRoot(CUBE_ROOTS[35], PRIMES[35])
    ensures IsCubeRoot(CUBE_ROOTS[36], PRIMES[36]) && IsCubeRoot(CUBE_ROOTS[37], PRIMES[37])
    ensures IsCubeRoot(CUBE_ROOTS[38], PRIMES[38]) && IsCubeRoot(CUBE_ROOTS[39], PRIMES[39])
  {
  }

  lemma WordsOfRow4()
    ensures K[32] as nat == CUBE_ROOTS[32] % TWO_TO_32 && K[33] as nat == CUBE_ROOTS[33] % TWO_TO_32
    ensures K[34] as nat == CUBE_ROOTS[34] % TWO_TO_32 && K[35] as nat == CUBE_ROOTS[35] % TWO_TO_32
    ensures K[36] as nat == CUBE_ROOTS[36] % TWO_TO_32 && K[37] as nat == CUBE_ROOTS[37] % TWO_TO_32
    ensures K[38] as nat == CUBE_ROOTS[38] % TWO_TO_32 && K[39] as nat == CUBE_ROOTS[39] % TWO_TO_32
  {
  }

  lemma PrimesOfRow5()
    ensures Consecutive(PRIMES[39], PRIMES[40]) && Consecutive(PRIMES[40], PRIMES[41])
    ensures Consecutive(PRIMES[41], PRIMES[42]) && Consecutive(PRIMES[42], PRIMES[43])
    ensures Consecutive(PRIMES[43], PRIMES[44]) && Consecutive(PRIMES[44], PRIMES[45])
    ensures Consecutive(PRIMES[45], PRIMES[46]) && Consecutive(PRIMES[46], PRIMES[47])
  {
  }

  lemma RootsOfRow5()
    ensures IsCubeRoot(CUBE_ROOTS[40], PRIMES[40]) && IsCubeRoot(CUBE_ROOTS[41], PRIMES[41])
    ensures IsCubeRoot(CUBE_ROOTS[42], PRIMES[42]) && IsCubeRoot(CUBE_ROOTS[43], PRIMES[43])
    ensures IsCubeRoot(CUBE_ROOTS[44], PRIMES[44]) && IsCubeRoot(CUBE_ROOTS[45], PRIMES[45])
    ensures IsCubeRoot(CUBE_ROOTS[46], PRIMES[46]) && IsCubeRoot(CUBE_ROOTS[47], PRIMES[47])
  {
  }

  lemma WordsOfRow5()
    ensures K[40] as nat == CUBE_ROOTS[40] % TWO_TO_32 && K[41] as nat == CUBE_ROOTS[41] % TWO_TO_32
    ensures K[42] as nat == CUBE_ROOTS[42] % TWO_TO_32 && K[43] as nat == CUBE_ROOTS[43] % TWO_TO_32
    ensures K[44] as nat == CUBE_ROOTS[44] % TWO_TO_32 && K[45] as nat == CUBE_ROOTS[45] % TWO_TO_32
    ensures K[46] as nat == CUBE_ROOTS[46] % TWO_TO_32 && K[47] as nat == CUBE_ROOTS[47] % TWO_TO_32
  {
  }

  lemma PrimesOfRow6()
    ensures Consecutive(PRIMES[47], PRIMES[48]) && Consecutive(PRIMES[48], PRIMES[49])
    ensures Consecutive(PRIMES[49], PRIMES[50]) && Consecutive(PRIMES[50], PRIMES[51])
    ensures Consecutive(PRIMES[51], PRIMES[52]) && Consecutive(PRIMES[52], PRIMES[53])
    ensures Consecutive(PRIMES[53], PRIMES[54]) && Consecutive(PRIMES[54], PRIMES[55])
  {
  }

  lemma RootsOfRow6()
    ensures IsCubeRoot(CUBE_ROOTS[48], PRIMES[48]) && IsCubeRoot(CUBE_ROOTS[49], PRIMES[49])
    ensures IsCubeRoot(CUBE_ROOTS[50], PRIMES[50]) && IsCubeRoot(CUBE_ROOTS[51], PRIMES[51])
    ensures IsCubeRoot(CUBE_ROOTS[52], PRIMES[52]) && IsCubeRoot(CUBE_ROOTS[53], PRIMES[53])
    ensures IsCubeRoot(CUBE_ROOTS[54], PRIMES[54]) && IsCubeRoot(CUBE_ROOTS[55], PRIMES[55])
  {
  }

  lemma WordsOfRow6()
    ensures K[48] as nat == CUBE_ROOTS[48] % TWO_TO_32 && K[49] as nat == CUBE_ROOTS[49] % TWO_TO_32
    ensures K[50] as nat == CUBE_ROOTS[50] % TWO_TO_32 && K[51] as nat == CUBE_ROOTS[51] % TWO_TO_32
    ensures K[52] as nat == CUBE_ROOTS[52] % TWO_TO_32 && K[53] as nat == CUBE_ROOTS[53] % TWO_TO_32
    ensures K[54] as nat == CUBE_ROOTS[54] % TWO_TO_32 && K[55] as nat == CUBE_ROOTS[55] % TWO_TO_32
  {
  }

  lemma PrimesOfRow7()
    ensures Consecutive(PRIMES[55], PRIMES[56]) && Consecutive(PRIMES[56], PRIMES[57])
    ensures Consecutive(PRIMES[57], PRIMES[58]) && Consecutive(PRIMES[58], PRIMES[59])
    ensures Consecutive(PRIMES[59], PRIMES[60]) && Consecutive(PRIMES[60], PRIMES[61])
    ensures Consecutive(PRIMES[61], PRIMES[62]) && Consecutive(PRIMES[62], PRIMES[63])
  {
  }

  lemma RootsOfRow7()
    ensures IsCubeRoot(CUBE_ROOTS[56], PRIMES[56]) && IsCubeRoot(CUBE_ROOTS[57], PRIMES[57])
    ensures IsCubeRoot(CUBE_ROOTS[58], PRIMES[58]) && IsCubeRoot(CUBE_ROOTS[59], PRIMES[59])
    ensures IsCubeRoot(CUBE_ROOTS[60], PRIMES[60]) && IsCubeRoot(CUBE_ROOTS[61], PRIMES[61])
    ensures IsCubeRoot(CUBE_ROOTS[62], PRIMES[62]) && IsCubeRoot(CUBE_ROOTS[63], PRIMES[63])
  {
  }

  lemma WordsOfRow7()
    ensures K[56] as nat == CUBE_ROOTS[56] % TWO_TO_32 && K[57] as nat == CUBE_ROOTS[57] % TWO_TO_32
    ensures K[58] as nat == CUBE_ROOTS[58] % TWO_TO_32 && K[59] as nat == CUBE_ROOTS[59] % TWO_TO_32
    ensures K[60] as nat == CUBE_ROOTS[60] % TWO_TO_32 && K[61] as nat == CUBE_ROOTS[61] % TWO_TO_32
    ensures K[62] as nat == CUBE_ROOTS[62] % TWO_TO_32 && K[63] as nat == CUBE_ROOTS[63] % TWO_TO_32
  {
  }

  lemma DerivedTo24(t: nat)
    requires 0 <= t < 24
    ensures Derived(t)
  {
    hide Consecutive, IsCubeRoot, PRIMES, CUBE_ROOTS, K;
    if t < 8 {
      PrimesOfRow0();
      RootsOfRow0();
      WordsOfRow0();
    } else if t < 16 {
      PrimesOfRow1();
      RootsOfRow1();
      WordsOfRow1();
    } else {
      PrimesOfRow2();
      RootsOfRow2();
      WordsOfRow2();
    }
  }

  lemma DerivedTo48(t: nat)
    requires 24 <= t < 48
    ensures Derived(t)
  {
    hide Consecutive, IsCubeRoot, PRIMES, CUBE_ROOTS, K;
    if t < 32 {
      PrimesOfRow3();
      RootsOfRow3();
      WordsOfRow3();
    } else if t < 40 {
      PrimesOfRow4();
      RootsOfRow4();
      WordsOfRow4();
    } else {
      PrimesOfRow5();
      RootsOfRow5();
      WordsOfRow5();
    }
  }

  lemma DerivedTo64(t: nat)
    requires 48 <= t < 64
    ensures Derived(t)
  {
    hide Consecutive, IsCubeRoot, PRIMES, CUBE_ROOTS, K;
    if t < 56 {
      PrimesOfRow6();
      RootsOfRow6();
      WordsOfRow6();
    } else {
      PrimesOfRow7();
      RootsOfRow7();
      WordsOfRow7();
    }
  }

  /** The constants of section 4.2.2 are what the standard says they are. */
  lemma ConstantsAreDerived(t: nat)
    requires t < 64
    ensures Derived(t)
  {
    hide Derived;
    if t < 24 {
      DerivedTo24(t);
    } else if t < 48 {
      DerivedTo48(t);
    } else {
      DerivedTo64(t);
    }
  }

  /** And so are the initial hash values of section 5.3.3. */
  lemma InitialIsDerived(t: nat)
    requires t < 8
    ensures IsSquareRoot(SQUARE_ROOTS[t], PRIMES[t])
    ensures var h := INITIAL;
      [h.a, h.b, h.c, h.d, h.e, h.f, h.g, h.h][t].bits as nat == SQUARE_ROOTS[t] % TWO_TO_32
  {
    assert forall i :: 0 <= i < 8 ==> IsSquareRoot(SQUARE_ROOTS[i], PRIMES[i]) by {
      assert IsSquareRoot(SQUARE_ROOTS[0], PRIMES[0]) && IsSquareRoot(SQUARE_ROOTS[1], PRIMES[1]);
      assert IsSquareRoot(SQUARE_ROOTS[2], PRIMES[2]) && IsSquareRoot(SQUARE_ROOTS[3], PRIMES[3]);
      assert IsSquareRoot(SQUARE_ROOTS[4], PRIMES[4]) && IsSquareRoot(SQUARE_ROOTS[5], PRIMES[5]);
      assert IsSquareRoot(SQUARE_ROOTS[6], PRIMES[6]) && IsSquareRoot(SQUARE_ROOTS[7], PRIMES[7]);
    }
  }

  lemma LastPrime()
    ensures PRIMES[63] == 311 && |PRIMES| == 64
  {
  }

  lemma {:induction false} PrimesRise(i: nat, t: nat)
    requires i < t < 64 == |PRIMES|
    ensures PRIMES[i] < PRIMES[t]
    decreases t
  {
    hide PRIMES, CUBE_ROOTS, K, IsCubeRoot, NonePasses, PassesTrial;
    ConstantsAreDerived(t);
    if i < t - 1 {
      PrimesRise(i, t - 1);
    }
  }

  /** PRIMES are the first 64 primes: a number up to the t-th is prime exactly when it is one of
      the first t + 1. */
  lemma {:induction false} PrimesAreTheFirst(t: nat, n: nat)
    requires t < 64 == |PRIMES| && n <= PRIMES[t]
    ensures IsPrime(n) <==> exists i :: 0 <= i <= t && PRIMES[i] == n
    decreases t
  {
    hide IsPrime, PassesTrial, PRIMES, CUBE_ROOTS, K, IsCubeRoot, NonePasses;
    LastPrime();
    if t < 63 {
      PrimesRise(t, 63);
    }
    ConstantsAreDerived(t);
    TrialIsEnough(n);
    forall i | 0 <= i < t ensures PRIMES[i] < PRIMES[t] && (i < t - 1 ==> PRIMES[i] < PRIMES[t - 1]) {
      PrimesRise(i, t);
      if i < t - 1 {
        PrimesRise(i, t - 1);
      }
    }
    if t == 0 {
      OnlyTwo(n);
    } else if n <= PRIMES[t - 1] {
      PrimesAreTheFirst(t - 1, n);
    } else if n < PRIMES[t] {
      NoPrimeWithin(PRIMES[t - 1] + 1, PRIMES[t], n);
    } else {
      assert PRIMES[t] == n;
    }
  }

  lemma OnlyTwo(n: nat)
    requires n <= 2
    ensures PassesTrial(n) <==> n == 2
  {
  }
}
