/** The round constants of SHA-256, as the runtime finds them: the fractional parts of the cube roots
    of the first 64 primes, computed in floating point. */
module RoundConstants {
  import opened Basics
  import opened Words
  import Sha256

  // ── The primes by trial division ────────────────────────────────────────

  predicate Divides(d: int, n: int)
    requires d >= 1
  {
    n % d == 0
  }

  predicate Prime(n: int) {
    n >= 2 && forall d | 2 <= d < n :: !Divides(d, n)
  }

  const PRIMES: seq<int> :=
    [2, 3, 5, 7, 11, 13, 17, 19] +
    [23, 29, 31, 37, 41, 43, 47, 53] +
    [59, 61, 67, 71, 73, 79, 83, 89] +
    [97, 101, 103, 107, 109, 113, 127, 131] +
    [137, 139, 149, 151, 157, 163, 167, 173] +
    [179, 181, 191, 193, 197, 199, 211, 223] +
    [227, 229, 233, 239, 241, 251, 257, 263] +
    [269, 271, 277, 281, 283, 293, 307, 311]

  /** Neither 2, 3, 5, 7, 11, 13 nor 17 divides `n`, unless it is `n`. */
  predicate NoneDivides(n: int) {
    && (n == 2 || n % 2 != 0) && (n == 3 || n % 3 != 0) && (n == 5 || n % 5 != 0) && (n == 7 || n % 7 != 0)
    && (n == 11 || n % 11 != 0) && (n == 13 || n % 13 != 0) && (n == 17 || n % 17 != 0)
  }

  lemma Cofactor(d: int, n: int) returns (e: int)
    requires 2 <= d < n && Divides(d, n)
    ensures 2 <= e < n && n == d * e && Divides(e, n)
  {
    e := n / d;
    assert n == d * e;
    Factors(d, e);
    Multiple(d, e);
  }

  lemma Factors(d: int, e: int)
    requires 2 <= d < d * e
    ensures 2 <= e < d * e
  {
    if e <= 1 {
      Times(d, e, 1);
    } else {
      Times(e, 2, d);
    }
  }

  lemma Times(a: int, b: int, c: int)
    requires a >= 0 && b <= c
    ensures a * b <= a * c
  {}

  lemma Multiple(d: int, e: int)
    requires e >= 1
    ensures d * e % e == 0
  {
    var q, r := d * e / e, d * e % e;
    assert d * e == e * q + r;
    assert (d - q) * e == r;
    if d - q >= 1 {
      Times(e, 1, d - q);
    } else if d - q <= -1 {
      Times(e, d - q, -1);
    }
  }

  /** Up to 323 a number is prime exactly when no prime up to 17 divides it. */
  lemma PrimeIs(n: int)
    requires 2 <= n < 324
    ensures Prime(n) <==> NoneDivides(n)
  {
    if Prime(n) {
      assert forall d | d in [2, 3, 5, 7, 11, 13, 17] && d < n :: !Divides(d, n);
      NotBelow(n);
    } else {
      var d :| 2 <= d < n && Divides(d, n);
      var e := Cofactor(d, n);
      if d >= 18 && e >= 18 {
        Times(d, 18, e);
      }
      SmallDivisor(n, if d < 18 then d else e);
    }
  }

  lemma NotBelow(n: int)
    requires n >= 2 && forall d | d in [2, 3, 5, 7, 11, 13, 17] && d < n :: !Divides(d, n)
    ensures NoneDivides(n)
  {
    var ds := [2, 3, 5, 7, 11, 13, 17];
    assert ds[0] in ds && ds[1] in ds && ds[2] in ds && ds[3] in ds && ds[4] in ds && ds[5] in ds && ds[6] in ds;
  }

  lemma SmallDivisor(n: int, d: int)
    requires 2 <= d < 18 && d < n && Divides(d, n)
    ensures !NoneDivides(n)
  {
    match d
    case 4 => Through(n, 2, 2);
    case 6 => Through(n, 2, 3);
    case 8 => Through(n, 2, 4);
    case 9 => Through(n, 3, 3);
    case 10 => Through(n, 2, 5);
    case 12 => Through(n, 2, 6);
    case 14 => Through(n, 2, 7);
    case 15 => Through(n, 3, 5);
    case 16 => Through(n, 2, 8);
    case _ =>
  }

  lemma Through(n: int, q: int, k: int)
    requires q >= 1 && k >= 1 && n % (q * k) == 0
    ensures n % q == 0
  {
    var t := n / (q * k);
    assert n == q * k * t == k * t * q;
    Multiple(k * t, q);
  }

  /** None of the numbers between the two passes the trial divisions. */
  predicate NoneBetween(a: int, b: int)
    decreases b - a
  {
    a + 1 >= b || (!NoneDivides(a + 1) && NoneBetween(a + 1, b))
  }

  lemma {:induction false} NoneBetweenIs(a: int, b: int, n: int)
    requires NoneBetween(a, b) && a < n < b
    ensures !NoneDivides(n)
    decreases b - a
  {
    if n > a + 1 {
      NoneBetweenIs(a + 1, b, n);
    }
  }

  /** Neighbours in the table are prime and nothing between them is. */
  predicate Neighbours(a: int, b: int) {
    a < b && NoneDivides(a) && NoneDivides(b) && NoneBetween(a, b)
  }

  lemma Gaps0(i: nat)
    requires 0 <= i < 4
    ensures Neighbours(PRIMES[i], PRIMES[i + 1])
  {
    match i
    case 0 => assert Neighbours(2, 3);
    case 1 => assert Neighbours(3, 5);
    case 2 => assert Neighbours(5, 7);
    case 3 => assert Neighbours(7, 11);
  }

  lemma Gaps1(i: nat)
    requires 4 <= i < 8
    ensures Neighbours(PRIMES[i], PRIMES[i + 1])
  {
    match i
    case 4 => assert Neighbours(11, 13);
    case 5 => assert Neighbours(13, 17);
    case 6 => assert Neighbours(17, 19);
    case 7 => assert Neighbours(19, 23);
  }

  lemma Gaps2(i: nat)
    requires 8 <= i < 12
    ensures Neighbours(PRIMES[i], PRIMES[i + 1])
  {
    match i
    case 8 => assert Neighbours(23, 29);
    case 9 => assert Neighbours(29, 31);
    case 10 => assert Neighbours(31, 37);
    case 11 => assert Neighbours(37, 41);
  }

  lemma Gaps3(i: nat)
    requires 12 <= i < 16
    ensures Neighbours(PRIMES[i], PRIMES[i + 1])
  {
    match i
    case 12 => assert Neighbours(41, 43);
    case 13 => assert Neighbours(43, 47);
    case 14 => assert Neighbours(47, 53);
    case 15 => assert Neighbours(53, 59);
  }

  lemma Gaps4(i: nat)
    requires 16 <= i < 20
    ensures Neighbours(PRIMES[i], PRIMES[i + 1])
  {
    match i
    case 16 => assert Neighbours(59, 61);
    case 17 => assert Neighbours(61, 67);
    case 18 => assert Neighbours(67, 71);
    case 19 => assert Neighbours(71, 73);
  }

  lemma Gaps5(i: nat)
    requires 20 <= i < 24
    ensures Neighbours(PRIMES[i], PRIMES[i + 1])
  {
    match i
    case 20 => assert Neighbours(73, 79);
    case 21 => assert Neighbours(79, 83);
    case 22 => assert Neighbours(83, 89);
    case 23 => assert Neighbours(89, 97);
  }

  lemma Gaps6(i: nat)
    requires 24 <= i < 28
    ensures Neighbours(PRIMES[i], PRIMES[i + 1])
  {
    match i
    case 24 => assert Neighbours(97, 101);
    case 25 => assert Neighbours(101, 103);
    case 26 => assert Neighbours(103, 107);
    case 27 => assert Neighbours(107, 109);
  }

  lemma Gaps7(i: nat)
    requires 28 <= i < 32
    ensures Neighbours(PRIMES[i], PRIMES[i + 1])
  {
    match i
    case 28 => assert Neighbours(109, 113);
    case 29 => assert Neighbours(113, 127);
    case 30 => assert Neighbours(127, 131);
    case 31 => assert Neighbours(131, 137);
  }

  lemma Gaps8(i: nat)
    requires 32 <= i < 36
    ensures Neighbours(PRIMES[i], PRIMES[i + 1])
  {
    match i
    case 32 => assert Neighbours(137, 139);
    case 33 => assert Neighbours(139, 149);
    case 34 => assert Neighbours(149, 151);
    case 35 => assert Neighbours(151, 157);
  }

  lemma Gaps9(i: nat)
    requires 36 <= i < 40
    ensures Neighbours(PRIMES[i], PRIMES[i + 1])
  {
    match i
    case 36 => assert Neighbours(157, 163);
    case 37 => assert Neighbours(163, 167);
    case 38 => assert Neighbours(167, 173);
    case 39 => assert Neighbours(173, 179);
  }

  lemma Gaps10(i: nat)
    requires 40 <= i < 44
    ensures Neighbours(PRIMES[i], PRIMES[i + 1])
  {
    match i
    case 40 => assert Neighbours(179, 181);
    case 41 => assert Neighbours(181, 191);
    case 42 => assert Neighbours(191, 193);
    case 43 => assert Neighbours(193, 197);
  }

  lemma Gaps11(i: nat)
    requires 44 <= i < 48
    ensures Neighbours(PRIMES[i], PRIMES[i + 1])
  {
    match i
    case 44 => assert Neighbours(197, 199);
    case 45 => assert Neighbours(199, 211);
    case 46 => assert Neighbours(211, 223);
    case 47 => assert Neighbours(223, 227);
  }

  lemma Gaps12(i: nat)
    requires 48 <= i < 52
    ensures Neighbours(PRIMES[i], PRIMES[i + 1])
  {
    match i
    case 48 => assert Neighbours(227, 229);
    case 49 => assert Neighbours(229, 233);
    case 50 => assert Neighbours(233, 239);
    case 51 => assert Neighbours(239, 241);
  }

  lemma Gaps13(i: nat)
    requires 52 <= i < 56
    ensures Neighbours(PRIMES[i], PRIMES[i + 1])
  {
    match i
    case 52 => assert Neighbours(241, 251);
    case 53 => assert Neighbours(251, 257);
    case 54 => assert Neighbours(257, 263);
    case 55 => assert Neighbours(263, 269);
  }

  lemma Gaps14(i: nat)
    requires 56 <= i < 60
    ensures Neighbours(PRIMES[i], PRIMES[i + 1])
  {
    match i
    case 56 => assert Neighbours(269, 271);
    case 57 => assert Neighbours(271, 277);
    case 58 => assert Neighbours(277, 281);
    case 59 => assert Neighbours(281, 283);
  }

  lemma Gaps15(i: nat)
    requires 60 <= i < 63
    ensures Neighbours(PRIMES[i], PRIMES[i + 1])
  {
    match i
    case 60 => assert Neighbours(283, 293);
    case 61 => assert Neighbours(293, 307);
    case 62 => assert Neighbours(307, 311);
  }

  lemma Gaps(i: nat)
    requires i < 63
    ensures Neighbours(PRIMES[i], PRIMES[i + 1])
  {
    hide Neighbours;
    if i < 4 {
      Gaps0(i);
    } else if i < 8 {
      Gaps1(i);
    } else if i < 12 {
      Gaps2(i);
    } else if i < 16 {
      Gaps3(i);
    } else if i < 20 {
      Gaps4(i);
    } else if i < 24 {
      Gaps5(i);
    } else if i < 28 {
      Gaps6(i);
    } else if i < 32 {
      Gaps7(i);
    } else if i < 36 {
      Gaps8(i);
    } else if i < 40 {
      Gaps9(i);
    } else if i < 44 {
      Gaps10(i);
    } else if i < 48 {
      Gaps11(i);
    } else if i < 52 {
      Gaps12(i);
    } else if i < 56 {
      Gaps13(i);
    } else if i < 60 {
      Gaps14(i);
    } else {
      Gaps15(i);
    }
  }

  /** The table holds exactly the primes below 312, in increasing order. */
  lemma TableIsPrimes(n: int)
    requires 2 <= n < 312
    ensures Prime(n) <==> n in PRIMES
  {
    hide Prime, Neighbours, NoneDivides;
    PrimeIs(n);
    var i := At(n, 0);
    if i < 63 {
      Gaps(i);
      Between(PRIMES[i], PRIMES[i + 1], n);
    }
    if n in PRIMES {
      var j :| 0 <= j < 64 && PRIMES[j] == n;
      TableIsPrime(j);
    } else {
      assert i < 63;
    }
  }

  /** The last place of the table not above `n`. */
  lemma At(n: int, i: nat) returns (k: nat)
    requires i < 64 && PRIMES[i] <= n < 312
    ensures k < 64 && PRIMES[k] <= n && (if k < 63 then n < PRIMES[k + 1] else PRIMES[k] == 311)
    decreases 64 - i
  {
    if i == 63 || n < PRIMES[i + 1] {
      k := i;
    } else {
      k := At(n, i + 1);
    }
  }

  lemma Between(a: int, b: int, n: int)
    requires Neighbours(a, b) && a <= n < b
    ensures NoneDivides(n) <==> n == a
  {
    hide NoneDivides;
    if n > a {
      NoneBetweenIs(a, b, n);
    }
  }

  lemma TableIsPrime(i: nat)
    requires i < 64
    ensures NoneDivides(PRIMES[i]) && 2 <= PRIMES[i] < 312
  {
    hide NoneDivides;
    if i < 63 { Gaps(i); } else { Gaps(62); }
    if i > 0 { Grows(0, i); }
    if i < 63 { Grows(i, 63); }
  }

  lemma {:induction false} Grows(i: nat, j: nat)
    requires i < j < 64
    ensures PRIMES[i] < PRIMES[j]
  {
    hide NoneDivides, NoneBetween;
    Gaps(j - 1);
    if i < j - 1 {
      Grows(i, j - 1);
    }
  }

  // ── The cube roots ──────────────────────────────────────────────────────

  const SCALE := 0x1_000000_000000_000000_000000_000000 // 2^120

  function Cube(n: int): int { n * n * n }

  /** `n` is 2^32 times the cube root of `p` rounded down, and the product is no
      closer than 1/256 to a whole number. */
  predicate Tight(p: int, n: int) {
    Cube(256 * n + 1) <= p * SCALE < Cube(256 * n + 255)
  }

  lemma Roots0(i: nat) returns (n: int)
    requires 0 <= i < 8
    ensures Tight(PRIMES[i], n) && n > 0 && n % M == Sha256.RoundConstant(i)
  {
    match i
    case 0 => n := 0x1_428a2f98; assert Tight(2, n);
    case 1 => n := 0x1_71374491; assert Tight(3, n);
    case 2 => n := 0x1_b5c0fbcf; assert Tight(5, n);
    case 3 => n := 0x1_e9b5dba5; assert Tight(7, n);
    case 4 => n := 0x2_3956c25b; assert Tight(11, n);
    case 5 => n := 0x2_59f111f1; assert Tight(13, n);
    case 6 => n := 0x2_923f82a4; assert Tight(17, n);
    case 7 => n := 0x2_ab1c5ed5; assert Tight(19, n);
  }

  lemma Roots1(i: nat) returns (n: int)
    requires 8 <= i < 16
    ensures Tight(PRIMES[i], n) && n > 0 && n % M == Sha256.RoundConstant(i)
  {
    match i
    case 8 => n := 0x2_d807aa98; assert Tight(23, n);
    case 9 => n := 0x3_12835b01; assert Tight(29, n);
    case 10 => n := 0x3_243185be; assert Tight(31, n);
    case 11 => n := 0x3_550c7dc3; assert Tight(37, n);
    case 12 => n := 0x3_72be5d74; assert Tight(41, n);
    case 13 => n := 0x3_80deb1fe; assert Tight(43, n);
    case 14 => n := 0x3_9bdc06a7; assert Tight(47, n);
    case 15 => n := 0x3_c19bf174; assert Tight(53, n);
  }

  lemma Roots2(i: nat) returns (n: int)
    requires 16 <= i < 24
    ensures Tight(PRIMES[i], n) && n > 0 && n % M == Sha256.RoundConstant(i)
  {
    match i
    case 16 => n := 0x3_e49b69c1; assert Tight(59, n);
    case 17 => n := 0x3_efbe4786; assert Tight(61, n);
    case 18 => n := 0x4_0fc19dc6; assert Tight(67, n);
    case 19 => n := 0x4_240ca1cc; assert Tight(71, n);
    case 20 => n := 0x4_2de92c6f; assert Tight(73, n);
    case 21 => n := 0x4_4a7484aa; assert Tight(79, n);
    case 22 => n := 0x4_5cb0a9dc; assert Tight(83, n);
    case 23 => n := 0x4_76f988da; assert Tight(89, n);
  }

  lemma Roots3(i: nat) returns (n: int)
    requires 24 <= i < 32
    ensures Tight(PRIMES[i], n) && n > 0 && n % M == Sha256.RoundConstant(i)
  {
    match i
    case 24 => n := 0x4_983e5152; assert Tight(97, n);
    case 25 => n := 0x4_a831c66d; assert Tight(101, n);
    case 26 => n := 0x4_b00327c8; assert Tight(103, n);
    case 27 => n := 0x4_bf597fc7; assert Tight(107, n);
    case 28 => n := 0x4_c6e00bf3; assert Tight(109, n);
    case 29 => n := 0x4_d5a79147; assert Tight(113, n);
    case 30 => n := 0x5_06ca6351; assert Tight(127, n);
    case 31 => n := 0x5_14292967; assert Tight(131, n);
  }

  lemma Roots4(i: nat) returns (n: int)
    requires 32 <= i < 40
    ensures Tight(PRIMES[i], n) && n > 0 && n % M == Sha256.RoundConstant(i)
  {
    match i
    case 32 => n := 0x5_27b70a85; assert Tight(137, n);
    case 33 => n := 0x5_2e1b2138; assert Tight(139, n);
    case 34 => n := 0x5_4d2c6dfc; assert Tight(149, n);
    case 35 => n := 0x5_53380d13; assert Tight(151, n);
    case 36 => n := 0x5_650a7354; assert Tight(157, n);
    case 37 => n := 0x5_766a0abb; assert Tight(163, n);
    case 38 => n := 0x5_81c2c92e; assert Tight(167, n);
    case 39 => n := 0x5_92722c85; assert Tight(173, n);
  }

  lemma Roots5(i: nat) returns (n: int)
    requires 40 <= i < 48
    ensures Tight(PRIMES[i], n) && n > 0 && n % M == Sha256.RoundConstant(i)
  {
    match i
    case 40 => n := 0x5_a2bfe8a1; assert Tight(179, n);
    case 41 => n := 0x5_a81a664b; assert Tight(181, n);
    case 42 => n := 0x5_c24b8b70; assert Tight(191, n);
    case 43 => n := 0x5_c76c51a3; assert Tight(193, n);
    case 44 => n := 0x5_d192e819; assert Tight(197, n);
    case 45 => n := 0x5_d6990624; assert Tight(199, n);
    case 46 => n := 0x5_f40e3585; assert Tight(211, n);
    case 47 => n := 0x6_106aa070; assert Tight(223, n);
  }

  lemma Roots6(i: nat) returns (n: int)
    requires 48 <= i < 56
    ensures Tight(PRIMES[i], n) && n > 0 && n % M == Sha256.RoundConstant(i)
  {
    match i
    case 48 => n := 0x6_19a4c116; assert Tight(227, n);
    case 49 => n := 0x6_1e376c08; assert Tight(229, n);
    case 50 => n := 0x6_2748774c; assert Tight(233, n);
    case 51 => n := 0x6_34b0bcb5; assert Tight(239, n);
    case 52 => n := 0x6_391c0cb3; assert Tight(241, n);
    case 53 => n := 0x6_4ed8aa4a; assert Tight(251, n);
    case 54 => n := 0x6_5b9cca4f; assert Tight(257, n);
    case 55 => n := 0x6_682e6ff3; assert Tight(263, n);
  }

  lemma Roots7(i: nat) returns (n: int)
    requires 56 <= i < 64
    ensures Tight(PRIMES[i], n) && n > 0 && n % M == Sha256.RoundConstant(i)
  {
    match i
    case 56 => n := 0x6_748f82ee; assert Tight(269, n);
    case 57 => n := 0x6_78a5636f; assert Tight(271, n);
    case 58 => n := 0x6_84c87814; assert Tight(277, n);
    case 59 => n := 0x6_8cc70208; assert Tight(281, n);
    case 60 => n := 0x6_90befffa; assert Tight(283, n);
    case 61 => n := 0x6_a4506ceb; assert Tight(293, n);
    case 62 => n := 0x6_bef9a3f7; assert Tight(307, n);
    case 63 => n := 0x6_c67178f2; assert Tight(311, n);
  }

  lemma Roots(i: nat) returns (n: int)
    requires i < 64
    ensures Tight(PRIMES[i], n) && n > 0 && n % M == Sha256.RoundConstant(i)
  {
    hide Tight, Sha256.RoundConstant;
    if i < 8 {
      n := Roots0(i);
    } else if i < 16 {
      n := Roots1(i);
    } else if i < 24 {
      n := Roots2(i);
    } else if i < 32 {
      n := Roots3(i);
    } else if i < 40 {
      n := Roots4(i);
    } else if i < 48 {
      n := Roots5(i);
    } else if i < 56 {
      n := Roots6(i);
    } else {
      n := Roots7(i);
    }
  }

  /** Section 4.2.2: the first 32 bits of the fractional part of the cube root. */
  lemma TableIsRoots(i: nat)
    requires i < 64
    ensures exists n: nat :: Rooted(PRIMES[i], n) && n % M == Sha256.RoundConstant(i)
  {
    hide Tight, Rooted;
    var n := Roots(i);
    TightIsRooted(PRIMES[i], n);
  }

  /** `n` is 2^32 times the cube root of `p`, rounded down. */
  predicate Rooted(p: int, n: nat) {
    Cube(n) <= p * 0x1_000000_000000_000000_000000 < Cube(n + 1)
  }

  lemma TightIsRooted(p: int, n: nat)
    requires Tight(p, n)
    ensures Rooted(p, n)
  {
    CubesGrow(256 * n, 256 * n + 1);
    CubesGrow(256 * n + 255, 256 * (n + 1));
    CubeOfMany(n);
    CubeOfMany(n + 1);
    hide Cube;
    assert p * SCALE == 0x100_0000 * (p * 0x1_000000_000000_000000_000000);
  }

  lemma CubeOfMany(n: nat)
    ensures Cube(256 * n) == 0x100_0000 * Cube(n)
  {
    var a := 256 * n;
    assert a * a == 0x1_0000 * (n * n);
    assert a * a * a == 0x100_0000 * (n * n * n);
  }

  lemma CubesGrow(a: nat, b: nat)
    requires a <= b
    ensures Cube(a) <= Cube(b)
  {
    Times(a, a, b);
    Times(b, a, b);
    assert a * a <= b * b;
    Times(a, a * a, b * b);
    Times(b * b, a, b);
  }

  function RealCube(x: real): real { x * x * x }

  /** `y` is within 2^-40 of the cube root of `p`, a thousand times the distance of doubles there. */
  predicate Near(p: int, y: real) {
    var u := y * 1099511627776.0; // 2^40
    u >= 1.0 && RealCube(u - 1.0) <= (p * SCALE) as real <= RealCube(u + 1.0)
  }

  lemma CubeGrows(a: real, b: real)
    requires 0.0 <= a < b
    ensures RealCube(a) < RealCube(b)
  {
    var x, y := a * a, b * b;
    assert (b - a) * a == a * b - x && (b - a) * b == y - a * b;
    assert x <= a * b < y;
    assert x * (b - a) == x * b - x * a;
    assert (y - x) * b == y * b - x * b;
  }

  lemma CubeOf(n: int)
    ensures RealCube(n as real) == Cube(n) as real
  {
    var x := n as real;
    assert x * x == (n * n) as real;
    assert x * x * x == (n * n * n) as real;
  }

  /** Any such `y` gives the same whole number. */
  lemma FloorIs(p: int, n: int, y: real)
    requires Tight(p, n) && n > 0 && Near(p, y)
    ensures (y * 4294967296.0).Floor == n
  {
    var u := y * 1099511627776.0;
    CubeOf(256 * n + 1);
    CubeOf(256 * n + 255);
    hide Cube, RealCube;
    var low, high := (256 * n + 1) as real, (256 * n + 255) as real;
    if u + 1.0 < low {
      CubeGrows(u + 1.0, low);
    }
    if u - 1.0 >= high {
      if u - 1.0 > high {
        CubeGrows(high, u - 1.0);
      }
    }
    assert low <= u + 1.0 && u - 1.0 < high;
    assert 256.0 * (n as real) <= u < 256.0 * (n as real) + 256.0;
    assert u == 256.0 * (y * 4294967296.0);
  }

  // ── The loop ────────────────────────────────────────────────────────────

  /** The runtime's loop finds the constants of section 4.2.2 of FIPS 180-4, whatever doubles `Math.pow`
      gives for the cube roots, as long as they are this near. */
  function Constant(i: nat): int
    requires i < 64
  {
    Signed(Sha256.RoundConstant(i))
  }

  function NthPrime(i: nat): int
    requires i < 64
  {
    PRIMES[i]
  }

  method Constants(pow: int -> real) returns (k: seq<int>)
    requires forall p | 2 <= p < 312 :: Near(p, pow(p))
    ensures |k| == 64 && forall i | 0 <= i < 64 :: k[i] == Constant(i)
  {
    hide *;
    k := [];
    var p := 2;
    FirstPrime();
    while |k| < 64
      invariant 2 <= p <= 312 && |k| <= 64
      invariant forall i | 0 <= i < |k| :: k[i] == Constant(i)
      invariant |k| > 0 ==> NthPrime(|k| - 1) < p
      invariant |k| < 64 ==> p <= NthPrime(|k|) < 312
      decreases 312 - p
    {
      var d := 2;
      while d * d <= p && p % d != 0
        invariant 2 <= d <= p
        invariant forall e | 2 <= e < d :: !Divides(e, p)
      {
        NotYet(d, p);
        d := d + 1;
      }
      Tried(d, p);
      NextPrime(|k|, p);
      if d * d > p {
        RootIs(|k|, pow(p));
        k := k + [Signed((pow(p) * 4294967296.0).Floor)];
      }
      p := p + 1;
    }
  }

  lemma NotYet(d: int, p: int)
    requires 2 <= d && d * d <= p && p % d != 0
    ensures !Divides(d, p) && d < p
  {
    Times(d, 2, d);
  }

  /** Trial division up to the square root decides. */
  lemma Tried(d: int, p: int)
    requires 2 <= d <= p && (d * d > p || p % d == 0) && forall e | 2 <= e < d :: !Divides(e, p)
    ensures d * d > p <==> Prime(p)
  {
    if d * d > p {
      forall e | 2 <= e < p ensures !Divides(e, p) {
        if Divides(e, p) {
          var f := Cofactor(e, p);
          Times(d, d, f);
          Times(f, d, e);
        }
      }
    } else {
      assert Divides(d, p);
      Times(d, 2, d);
    }
  }

  lemma FirstPrime()
    ensures NthPrime(0) == 2
  {}

  lemma RootIs(i: nat, y: real)
    requires i < 64 && Near(NthPrime(i), y)
    ensures Signed((y * 4294967296.0).Floor) == Constant(i)
  {
    hide Tight, Near, Signed, Cube, RealCube, Sha256.RoundConstant;
    var n := Roots(i);
    FloorIs(PRIMES[i], n, y);
    SameSigned(n, Sha256.RoundConstant(i));
  }

  lemma SameSigned(a: int, b: int)
    requires a % M == b % M
    ensures Signed(a) == Signed(b)
  {}

  lemma NextPrime(m: nat, p: int)
    requires m < 64 && 2 <= p <= NthPrime(m) < 312 && (m > 0 ==> NthPrime(m - 1) < p)
    ensures Prime(p) <==> p == NthPrime(m)
    ensures m < 63 ==> NthPrime(m) < NthPrime(m + 1) < 312
  {
    hide Prime, NoneDivides;
    PrimeIs(p);
    if m > 0 {
      Gaps(m - 1);
      if p < PRIMES[m] {
        NoneBetweenIs(PRIMES[m - 1], PRIMES[m], p);
      }
    }
    TableIsPrime(m);
    if m < 63 {
      Gaps(m);
      TableIsPrime(m + 1);
    }
  }
}
