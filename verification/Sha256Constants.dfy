/**
  The tables of deps/include/picosha2.h, and where FIPS 180-4 takes their entries from: the first 32
  bits of the fractional parts of the cube roots and square roots of the first primes.
*/
module Sha256Constants {
  import Std = Sha256Standard

  // ---------- the tables of the source ----------

  /** Eight entries of `add_constant`. */
  function AddConstants(row: nat): (r: seq<nat>)
    requires row < 8
    ensures |r| == 8
  {
    if row == 0 then [0x428a2f98, 0x71374491, 0xb5c0fbcf, 0xe9b5dba5, 0x3956c25b, 0x59f111f1, 0x923f82a4, 0xab1c5ed5]
    else if row == 1 then [0xd807aa98, 0x12835b01, 0x243185be, 0x550c7dc3, 0x72be5d74, 0x80deb1fe, 0x9bdc06a7, 0xc19bf174]
    else if row == 2 then [0xe49b69c1, 0xefbe4786, 0x0fc19dc6, 0x240ca1cc, 0x2de92c6f, 0x4a7484aa, 0x5cb0a9dc, 0x76f988da]
    else if row == 3 then [0x983e5152, 0xa831c66d, 0xb00327c8, 0xbf597fc7, 0xc6e00bf3, 0xd5a79147, 0x06ca6351, 0x14292967]
    else if row == 4 then [0x27b70a85, 0x2e1b2138, 0x4d2c6dfc, 0x53380d13, 0x650a7354, 0x766a0abb, 0x81c2c92e, 0x92722c85]
    else if row == 5 then [0xa2bfe8a1, 0xa81a664b, 0xc24b8b70, 0xc76c51a3, 0xd192e819, 0xd6990624, 0xf40e3585, 0x106aa070]
    else if row == 6 then [0x19a4c116, 0x1e376c08, 0x2748774c, 0x34b0bcb5, 0x391c0cb3, 0x4ed8aa4a, 0x5b9cca4f, 0x682e6ff3]
    else [0x748f82ee, 0x78a5636f, 0x84c87814, 0x8cc70208, 0x90befffa, 0xa4506ceb, 0xbef9a3f7, 0xc67178f2]
  }

  function AddConstant(i: nat): nat
    requires i < 64
  {
    AddConstants(i / 8)[i % 8]
  }

  const INITIAL_MESSAGE_DIGEST: seq<nat> := [0x6a09e667, 0xbb67ae85, 0x3c6ef372, 0xa54ff53a, 0x510e527f, 0x9b05688c, 0x1f83d9ab, 0x5be0cd19]

  lemma TableIsStandard(i: nat)
    requires i < 64
    ensures AddConstant(i) == Std.K(i)
  {
    var row := i / 8;
    assert AddConstants(row)[i % 8] == Std.KRow(row)[i % 8];
  }

  lemma InitialIsStandard()
    ensures |INITIAL_MESSAGE_DIGEST| == 8
    ensures var h := INITIAL_MESSAGE_DIGEST;
            && h[0] == Std.H0.a && h[1] == Std.H0.b && h[2] == Std.H0.c && h[3] == Std.H0.d
            && h[4] == Std.H0.e && h[5] == Std.H0.f && h[6] == Std.H0.g && h[7] == Std.H0.h
  {
  }

  // ---------- the first primes ----------

  ghost predicate IsPrime(p: nat) {
    p >= 2 && forall d :: 2 <= d < p ==> p % d != 0
  }

  function Primes(row: nat): (r: seq<nat>)
    requires row < 8
    ensures |r| == 8
  {
    if row == 0 then [2, 3, 5, 7, 11, 13, 17, 19]
    else if row == 1 then [23, 29, 31, 37, 41, 43, 47, 53]
    else if row == 2 then [59, 61, 67, 71, 73, 79, 83, 89]
    else if row == 3 then [97, 101, 103, 107, 109, 113, 127, 131]
    else if row == 4 then [137, 139, 149, 151, 157, 163, 167, 173]
    else if row == 5 then [179, 181, 191, 193, 197, 199, 211, 223]
    else if row == 6 then [227, 229, 233, 239, 241, 251, 257, 263]
    else [269, 271, 277, 281, 283, 293, 307, 311]
  }

  function Prime(i: nat): nat
    requires i < 64
  {
    Primes(i / 8)[i % 8]
  }

  function SmallestFactor(s: nat): (q: nat)
    requires 2 <= s < 19
    ensures q in {2, 3, 5, 7, 11, 13, 17} && q <= s && s % q == 0
  {
    if s % 2 == 0 then 2 else if s % 3 == 0 then 3 else s
  }

  lemma MultiplesOfSmall(n: nat)
    ensures (2 * n) % 2 == 0 && (3 * n) % 3 == 0 && (5 * n) % 5 == 0 && (7 * n) % 7 == 0
    ensures (11 * n) % 11 == 0 && (13 * n) % 13 == 0 && (17 * n) % 17 == 0
  {
  }

  lemma LargeProduct(d: nat, e: nat)
    requires d >= 19 && e >= 19
    ensures d * e >= 361
  {
    assert d * e >= 19 * e;
  }

  lemma DivisibleBy(p: nat, q: nat, n: nat)
    requires q in {2, 3, 5, 7, 11, 13, 17} && p == q * n
    ensures p % q == 0
  {
    MultiplesOfSmall(n);
  }

  lemma Regroup(q: nat, k: nat, t: nat)
    ensures (q * k) * t == q * (k * t)
  {
  }

  lemma SmallFactor(p: nat, s: nat, t: nat)
    requires p == s * t && 2 <= s < 19 && t >= 2
    ensures SmallestFactor(s) < p && p % SmallestFactor(s) == 0
  {
    var q := SmallestFactor(s);
    assert s == q * (s / q);
    assert s * t >= 2 * s;
    hide SmallestFactor;
    Regroup(q, s / q, t);
    DivisibleBy(p, q, (s / q) * t);
  }

  /** Of two factors of a number below 19 * 19 one is below 19. */
  lemma FactorOfProduct(p: nat, d: nat, e: nat) returns (q: nat)
    requires 2 <= p < 361 && p == d * e && d >= 2 && e >= 2
    ensures q in {2, 3, 5, 7, 11, 13, 17} && p != q && p % q == 0
  {
    if d < 19 {
      SmallFactor(p, d, e);
      q := SmallestFactor(d);
    } else if e < 19 {
      SmallFactor(p, e, d);
      q := SmallestFactor(e);
    } else {
      LargeProduct(d, e);
      assert false;
    }
  }

  lemma NoSmallFactor(p: nat)
    requires 2 <= p < 361 && forall q :: q in {2, 3, 5, 7, 11, 13, 17} ==> p == q || p % q != 0
    ensures IsPrime(p)
  {
    forall d | 2 <= d < p
      ensures p % d != 0
    {
      if p % d == 0 {
        assert p == d * (p / d);
        var q := FactorOfProduct(p, d, p / d);
      }
    }
  }

  predicate Factored(m: nat) {
    || (m > 2 && m % 2 == 0)
    || (m > 3 && m % 3 == 0)
    || (m > 5 && m % 5 == 0)
    || (m > 7 && m % 7 == 0)
    || (m > 11 && m % 11 == 0)
    || (m > 13 && m % 13 == 0)
    || (m > 17 && m % 17 == 0)
  }

  predicate AllFactored(a: nat, b: nat)
    decreases b - a
  {
    a < b ==> Factored(a) && AllFactored(a + 1, b)
  }

  lemma {:induction false} FactoredBetween(a: nat, b: nat, m: nat)
    requires AllFactored(a, b) && a <= m < b
    ensures Factored(m)
    decreases b - a
  {
    if a < m {
      FactoredBetween(a + 1, b, m);
    }
  }

  lemma Gaps0()
    ensures AllFactored(3, 3) && AllFactored(4, 5) && AllFactored(6, 7) && AllFactored(8, 11)
    ensures AllFactored(12, 13) && AllFactored(14, 17) && AllFactored(18, 19) && AllFactored(20, 23)
    ensures AllFactored(24, 29) && AllFactored(30, 31) && AllFactored(32, 37) && AllFactored(38, 41)
    ensures AllFactored(42, 43) && AllFactored(44, 47) && AllFactored(48, 53) && AllFactored(54, 59)
  {
  }

  lemma Gaps1()
    ensures AllFactored(60, 61) && AllFactored(62, 67) && AllFactored(68, 71) && AllFactored(72, 73)
    ensures AllFactored(74, 79) && AllFactored(80, 83) && AllFactored(84, 89) && AllFactored(90, 97)
    ensures AllFactored(98, 101) && AllFactored(102, 103) && AllFactored(104, 107) && AllFactored(108, 109)
    ensures AllFactored(110, 113) && AllFactored(114, 127) && AllFactored(128, 131) && AllFactored(132, 137)
  {
  }

  lemma Gaps2()
    ensures AllFactored(138, 139) && AllFactored(140, 149) && AllFactored(150, 151) && AllFactored(152, 157)
    ensures AllFactored(158, 163) && AllFactored(164, 167) && AllFactored(168, 173) && AllFactored(174, 179)
    ensures AllFactored(180, 181) && AllFactored(182, 191) && AllFactored(192, 193) && AllFactored(194, 197)
    ensures AllFactored(198, 199) && AllFactored(200, 211) && AllFactored(212, 223) && AllFactored(224, 227)
  {
  }

  lemma Gaps3()
    ensures AllFactored(228, 229) && AllFactored(230, 233) && AllFactored(234, 239) && AllFactored(240, 241)
    ensures AllFactored(242, 251) && AllFactored(252, 257) && AllFactored(258, 263) && AllFactored(264, 269)
    ensures AllFactored(270, 271) && AllFactored(272, 277) && AllFactored(278, 281) && AllFactored(282, 283)
    ensures AllFactored(284, 293) && AllFactored(294, 307) && AllFactored(308, 311)
  {
  }

  lemma FactoredBelow0(i: nat)
    requires 0 < i <= 16
    ensures AllFactored(Prime(i - 1) + 1, Prime(i)) && Prime(i - 1) < Prime(i)
  {
    hide AllFactored;
    Gaps0();
  }

  lemma FactoredBelow1(i: nat)
    requires 16 < i <= 32
    ensures AllFactored(Prime(i - 1) + 1, Prime(i)) && Prime(i - 1) < Prime(i)
  {
    hide AllFactored;
    Gaps1();
  }

  lemma FactoredBelow2(i: nat)
    requires 32 < i <= 48
    ensures AllFactored(Prime(i - 1) + 1, Prime(i)) && Prime(i - 1) < Prime(i)
  {
    hide AllFactored;
    Gaps2();
  }

  lemma FactoredBelow3(i: nat)
    requires 48 < i < 64
    ensures AllFactored(Prime(i - 1) + 1, Prime(i)) && Prime(i - 1) < Prime(i)
  {
    hide AllFactored;
    Gaps3();
  }

  lemma FactoredBelow(i: nat)
    requires 0 < i < 64
    ensures AllFactored(Prime(i - 1) + 1, Prime(i)) && Prime(i - 1) < Prime(i)
  {
    hide AllFactored, Prime;
    if i <= 16 {
      FactoredBelow0(i);
    } else if i <= 32 {
      FactoredBelow1(i);
    } else if i <= 48 {
      FactoredBelow2(i);
    } else {
      FactoredBelow3(i);
    }
  }

  lemma EntryIsPrime(row: nat, column: nat)
    requires row < 8 && column < 8
    ensures IsPrime(Primes(row)[column])
  {
    var p := Primes(row)[column];
    assert 2 <= p < 361;
    assert forall q :: q in {2, 3, 5, 7, 11, 13, 17} ==> p == q || p % q != 0;
    hide Primes;
    NoSmallFactor(p);
  }

  /** The table lists consecutive primes, the first of them 2. */
  lemma FirstPrimes(i: nat)
    requires i < 64
    ensures IsPrime(Prime(i)) && Prime(0) == 2
    ensures i > 0 ==> Prime(i - 1) < Prime(i) && forall m :: Prime(i - 1) < m < Prime(i) ==> !IsPrime(m)
  {
    EntryIsPrime(i / 8, i % 8);
    if i > 0 {
      FactoredBelow(i);
      forall m | Prime(i - 1) < m < Prime(i)
        ensures !IsPrime(m)
      {
        FactoredBetween(Prime(i - 1) + 1, Prime(i), m);
      }
    }
  }

  // ---------- roots ----------

  predicate IsCubeRoot(x: nat, n: nat) {
    x * x * x <= n < (x + 1) * (x + 1) * (x + 1)
  }

  predicate IsSquareRoot(x: nat, n: nat) {
    x * x <= n < (x + 1) * (x + 1)
  }

  /** The whole part of the cube root. */
  function CubeRoot(p: nat): (n: nat)
    requires 0 < p < 343
    ensures IsCubeRoot(n, p)
  {
    if p < 8 then 1 else if p < 27 then 2 else if p < 64 then 3 else if p < 125 then 4 else if p < 216 then 5 else 6
  }

  function SquareRoot(p: nat): (n: nat)
    requires 0 < p < 25
    ensures IsSquareRoot(n, p)
  {
    if p < 4 then 1 else if p < 9 then 2 else if p < 16 then 3 else 4
  }

  predicate IsRoot(p: nat, x: nat) {
    0 < p < 343 && IsCubeRoot(CubeRoot(p) * 0x1_0000_0000 + x, p * 0x1_0000_0000_0000_0000_0000_0000)
  }

  lemma Roots0(column: nat)
    requires column < 8
    ensures IsRoot(Primes(0)[column], AddConstants(0)[column])
  {
  }

  lemma Roots1(column: nat)
    requires column < 8
    ensures IsRoot(Primes(1)[column], AddConstants(1)[column])
  {
  }

  lemma Roots2(column: nat)
    requires column < 8
    ensures IsRoot(Primes(2)[column], AddConstants(2)[column])
  {
  }

  lemma Roots3(column: nat)
    requires column < 8
    ensures IsRoot(Primes(3)[column], AddConstants(3)[column])
  {
  }

  lemma Roots4(column: nat)
    requires column < 8
    ensures IsRoot(Primes(4)[column], AddConstants(4)[column])
  {
  }

  lemma Roots5(column: nat)
    requires column < 8
    ensures IsRoot(Primes(5)[column], AddConstants(5)[column])
  {
  }

  lemma Roots6(column: nat)
    requires column < 8
    ensures IsRoot(Primes(6)[column], AddConstants(6)[column])
  {
  }

  lemma Roots7(column: nat)
    requires column < 8
    ensures IsRoot(Primes(7)[column], AddConstants(7)[column])
  {
  }

  lemma RowOfRoots(row: nat, column: nat)
    requires row < 8 && column < 8
    ensures IsRoot(Primes(row)[column], AddConstants(row)[column])
  {
    hide IsRoot, Primes, AddConstants;
    match row
    case 0 => Roots0(column);
    case 1 => Roots1(column);
    case 2 => Roots2(column);
    case 3 => Roots3(column);
    case 4 => Roots4(column);
    case 5 => Roots5(column);
    case 6 => Roots6(column);
    case _ => Roots7(column);
  }

  /** Entry `i` is the first 32 bits of the fractional part of the cube root of the `i`-th prime. */
  lemma ConstantsAreCubeRoots(i: nat)
    requires i < 64
    ensures var p := Prime(i);
            0 < p < 343 && IsCubeRoot(CubeRoot(p) * 0x1_0000_0000 + AddConstant(i), p * 0x1_0000_0000_0000_0000_0000_0000)
  {
    hide IsCubeRoot, CubeRoot, Primes, AddConstants;
    RowOfRoots(i / 8, i % 8);
  }

  /** The initial hash value is taken from the square roots of the first eight primes. */
  lemma InitialIsSquareRoots(i: nat)
    requires i < 8
    ensures var p := Prime(i);
            0 < p < 25 && IsSquareRoot(SquareRoot(p) * 0x1_0000_0000 + INITIAL_MESSAGE_DIGEST[i], p * 0x1_0000_0000_0000_0000)
  {
  }
}
