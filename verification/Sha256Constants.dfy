/** The constants of SHA-256: roots of primes. */
module Sha256Constants {
  import opened Words
  import opened Sha256

  // ----- primes -----

  ghost predicate IsPrime(n: nat) {
    n >= 2 && forall d | 2 <= d < n :: n % d != 0
  }

  // How many primes are below n: the rank of n, if it is one.
  ghost function PrimesBelow(n: nat): nat {
    if n == 0 then 0 else PrimesBelow(n - 1) + if IsPrime(n - 1) then 1 else 0
  }

  function Prime(t: nat): nat
    requires t < 64
  {
    var rows: seq<seq<nat>> :=
      [[2, 3, 5, 7, 11, 13, 17, 19],
       [23, 29, 31, 37, 41, 43, 47, 53],
       [59, 61, 67, 71, 73, 79, 83, 89],
       [97, 101, 103, 107, 109, 113, 127, 131],
       [137, 139, 149, 151, 157, 163, 167, 173],
       [179, 181, 191, 193, 197, 199, 211, 223],
       [227, 229, 233, 239, 241, 251, 257, 263],
       [269, 271, 277, 281, 283, 293, 307, 311]];
    assert forall r | 0 <= r < 8 :: |rows[r]| == 8;
    rows[t / 8][t % 8]
  }

  // No divisor up to 17, which is enough for numbers below 18 * 18.
  predicate Tried(n: nat) {
    && n >= 2 && (n == 2 || n % 2 != 0) && (n == 3 || n % 3 != 0) && (n == 5 || n % 5 != 0) && (n == 7 || n % 7 != 0)
    && (n == 11 || n % 11 != 0) && (n == 13 || n % 13 != 0) && (n == 17 || n % 17 != 0)
  }

  lemma SmallDivisor(n: nat, p: nat, d: nat)
    requires 2 <= d < n && p >= 2 && d % p == 0 && n % d == 0
    ensures n % p == 0 && n != p
  {
    var a, b := d / p, n / d;
    assert n == p * (a * b) by { assert n == d * b && d == p * a; MulAssoc(p, a, b); }
    ModUnique(n, p, a * b, 0);
  }

  lemma MulAssoc(x: nat, y: nat, z: nat)
    ensures (x * y) * z == x * (y * z)
  {
  }

  lemma TriedIsPrime(n: nat)
    requires n < 324
    ensures Tried(n) <==> IsPrime(n)
  {
    if Tried(n) {
      forall d | 2 <= d < n ensures n % d != 0 { NotDivided(n, d); }
    } else if n >= 2 {
      NotPrime(n);
    }
  }

  lemma NotPrime(n: nat)
    requires n >= 2 && !Tried(n)
    ensures !IsPrime(n)
  {
    var p := if n % 2 == 0 then 2 else if n % 3 == 0 then 3 else if n % 5 == 0 then 5 else if n % 7 == 0 then 7
             else if n % 11 == 0 then 11 else if n % 13 == 0 then 13 else 17;
    if n < p { TooSmall(n); } else { assert n % p == 0 && p < n; }
  }

  // Below 17 a number without the divisors 2, 3, 5 is among the primes that are tried.
  lemma TooSmall(n: nat)
    requires 2 <= n < 17
    ensures Tried(n) || !IsPrime(n)
  {
    if n % 2 == 0 && n != 2 { assert !IsPrime(n); }
    if n % 3 == 0 && n != 3 { assert !IsPrime(n); }
  }

  lemma NotDivided(n: nat, d: nat)
    requires n < 324 && Tried(n) && 2 <= d < n
    ensures n % d != 0
  {
    if n % d == 0 {
      var e := n / d;
      assert n == d * e;
      Factor(n, d, e);
      if d < 18 {
        NotTried(n, d);
      } else {
        if e >= 18 { MulBelow(d, e); }
        NotTried(n, e);
      }
    }
  }

  lemma Factor(n: nat, d: nat, e: nat)
    requires n == d * e && 2 <= d < n
    ensures 2 <= e < n && n % e == 0
  {
    MulGrows(d - 1, e);
    assert d * e == (d - 1) * e + e;
    ModUnique(n, e, d, 0);
  }

  lemma MulBelow(d: nat, e: nat)
    requires d >= 18 && e >= 18
    ensures d * e >= 324
  {
  }

  lemma NotTried(n: nat, d: nat)
    requires 2 <= d < 18 && d < n && n % d == 0
    ensures !Tried(n)
  {
    if d % 2 == 0 { SmallDivisor(n, 2, d); }
    else if d % 3 == 0 { SmallDivisor(n, 3, d); }
    else if d % 5 == 0 { SmallDivisor(n, 5, d); }
    else { assert d == 7 || d == 11 || d == 13 || d == 17; }
  }

  lemma TriedRank(n: nat)
    requires n < 324
    ensures PrimesBelow(n + 1) == PrimesBelow(n) + if Tried(n) then 1 else 0
  {
    TriedIsPrime(n);
  }

  predicate NoneTried(n: nat, m: nat)
    decreases m - n
  {
    n >= m || (!Tried(n) && NoneTried(n + 1, m))
  }

  lemma {:induction false} NoPrimes(n: nat, m: nat)
    requires n <= m < 324 && NoneTried(n, m)
    ensures PrimesBelow(m) == PrimesBelow(n)
    decreases m - n
  {
    if n < m {
      TriedRank(n);
      NoPrimes(n + 1, m);
    }
  }

  // ----- roots -----

  const TWO96: nat := 0x1_0000_0000_0000_0000_0000_0000

  // c is the cube root of p, as a binary fraction of 32 digits.
  ghost predicate CubeRoot(p: nat, c: nat) { c * c * c <= p * TWO96 < (c + 1) * (c + 1) * (c + 1) }

  ghost predicate SquareRoot(p: nat, c: nat) { c * c <= p * TWO64 < (c + 1) * (c + 1) }

  // The whole part of the cube root of the t-th prime.
  function Whole(t: nat): nat {
    if t < 4 then 1 else if t < 9 then 2 else if t < 18 then 3 else if t < 30 then 4 else if t < 47 then 5 else 6
  }

  // q is the next prime after p.
  predicate Next(p: nat, q: nat) { p < q < 324 && Tried(p) && Tried(q) && NoneTried(p + 1, q) }

  predicate NextAt(t: nat)
    requires t < 63
  {
    Next(Prime(t), Prime(t + 1))
  }

  // The constant has the digits of the root.
  ghost predicate RootAt(t: nat)
    requires t < 64
  {
    CubeRoot(Prime(t), Whole(t) * TWO32 + K(t))
  }

  lemma Primes0()
    ensures Next(2, 3) && Next(3, 5) && Next(5, 7) && Next(7, 11)
    ensures Next(11, 13) && Next(13, 17) && Next(17, 19) && Next(19, 23)
  {
  }

  lemma Row0()
    ensures NextAt(0) && NextAt(1) && NextAt(2) && NextAt(3) && NextAt(4) && NextAt(5) && NextAt(6) && NextAt(7)
    ensures RootAt(0) && RootAt(1) && RootAt(2) && RootAt(3) && RootAt(4) && RootAt(5) && RootAt(6) && RootAt(7)
  {
    Primes0();
    hide Next;
  }

  lemma Primes1()
    ensures Next(23, 29) && Next(29, 31) && Next(31, 37) && Next(37, 41)
    ensures Next(41, 43) && Next(43, 47) && Next(47, 53) && Next(53, 59)
  {
  }

  lemma Row1()
    ensures NextAt(8) && NextAt(9) && NextAt(10) && NextAt(11) && NextAt(12) && NextAt(13) && NextAt(14) && NextAt(15)
    ensures RootAt(8) && RootAt(9) && RootAt(10) && RootAt(11) && RootAt(12) && RootAt(13) && RootAt(14) && RootAt(15)
  {
    Primes1();
    hide Next;
  }

  lemma Primes2()
    ensures Next(59, 61) && Next(61, 67) && Next(67, 71) && Next(71, 73)
    ensures Next(73, 79) && Next(79, 83) && Next(83, 89) && Next(89, 97)
  {
  }

  lemma Row2()
    ensures NextAt(16) && NextAt(17) && NextAt(18) && NextAt(19) && NextAt(20) && NextAt(21) && NextAt(22) && NextAt(23)
    ensures RootAt(16) && RootAt(17) && RootAt(18) && RootAt(19) && RootAt(20) && RootAt(21) && RootAt(22) && RootAt(23)
  {
    Primes2();
    hide Next;
  }

  lemma Primes3()
    ensures Next(97, 101) && Next(101, 103) && Next(103, 107) && Next(107, 109)
    ensures Next(109, 113) && Next(113, 127) && Next(127, 131) && Next(131, 137)
  {
  }

  lemma Row3()
    ensures NextAt(24) && NextAt(25) && NextAt(26) && NextAt(27) && NextAt(28) && NextAt(29) && NextAt(30) && NextAt(31)
    ensures RootAt(24) && RootAt(25) && RootAt(26) && RootAt(27) && RootAt(28) && RootAt(29) && RootAt(30) && RootAt(31)
  {
    Primes3();
    hide Next;
  }

  lemma Primes4()
    ensures Next(137, 139) && Next(139, 149) && Next(149, 151) && Next(151, 157)
    ensures Next(157, 163) && Next(163, 167) && Next(167, 173) && Next(173, 179)
  {
  }

  lemma Row4()
    ensures NextAt(32) && NextAt(33) && NextAt(34) && NextAt(35) && NextAt(36) && NextAt(37) && NextAt(38) && NextAt(39)
    ensures RootAt(32) && RootAt(33) && RootAt(34) && RootAt(35) && RootAt(36) && RootAt(37) && RootAt(38) && RootAt(39)
  {
    Primes4();
    hide Next;
  }

  lemma Primes5()
    ensures Next(179, 181) && Next(181, 191) && Next(191, 193) && Next(193, 197)
    ensures Next(197, 199) && Next(199, 211) && Next(211, 223) && Next(223, 227)
  {
  }

  lemma Row5()
    ensures NextAt(40) && NextAt(41) && NextAt(42) && NextAt(43) && NextAt(44) && NextAt(45) && NextAt(46) && NextAt(47)
    ensures RootAt(40) && RootAt(41) && RootAt(42) && RootAt(43) && RootAt(44) && RootAt(45) && RootAt(46) && RootAt(47)
  {
    Primes5();
    hide Next;
  }

  lemma Primes6()
    ensures Next(227, 229) && Next(229, 233) && Next(233, 239) && Next(239, 241)
    ensures Next(241, 251) && Next(251, 257) && Next(257, 263) && Next(263, 269)
  {
  }

  lemma Row6()
    ensures NextAt(48) && NextAt(49) && NextAt(50) && NextAt(51) && NextAt(52) && NextAt(53) && NextAt(54) && NextAt(55)
    ensures RootAt(48) && RootAt(49) && RootAt(50) && RootAt(51) && RootAt(52) && RootAt(53) && RootAt(54) && RootAt(55)
  {
    Primes6();
    hide Next;
  }

  lemma Primes7()
    ensures Next(269, 271) && Next(271, 277) && Next(277, 281) && Next(281, 283)
    ensures Next(283, 293) && Next(293, 307) && Next(307, 311)
  {
  }

  lemma Row7()
    ensures NextAt(56) && NextAt(57) && NextAt(58) && NextAt(59) && NextAt(60) && NextAt(61) && NextAt(62)
    ensures RootAt(56) && RootAt(57) && RootAt(58) && RootAt(59) && RootAt(60) && RootAt(61) && RootAt(62) && RootAt(63)
  {
    Primes7();
    hide Next;
  }

  lemma AllRows(t: nat)
    requires t < 64
    ensures RootAt(t) && (t < 63 ==> NextAt(t))
  {
    hide RootAt, NextAt;
    if t < 8 { Row0(); } else if t < 16 { Row1(); } else if t < 24 { Row2(); } else if t < 32 { Row3(); }
    else if t < 40 { Row4(); } else if t < 48 { Row5(); } else if t < 56 { Row6(); } else { Row7(); }
  }

  lemma {:induction false} Ranked(t: nat)
    requires t < 64
    ensures IsPrime(Prime(t)) && PrimesBelow(Prime(t)) == t
  {
    hide Prime, Next, IsPrime, PrimesBelow, RootAt;
    if t > 0 {
      AllRows(t - 1);
      Ranked(t - 1);
      NextRank(Prime(t - 1), Prime(t));
    } else {
      FirstPrime();
    }
  }

  lemma NextRank(p: nat, q: nat)
    requires Next(p, q)
    ensures IsPrime(q) && PrimesBelow(q) == PrimesBelow(p) + 1
  {
    hide Tried, NoneTried;
    TriedRank(p);
    NoPrimes(p + 1, q);
    TriedIsPrime(q);
  }

  lemma FirstPrime()
    ensures Prime(0) == 2 && IsPrime(2) && PrimesBelow(2) == 0
  {
    TriedRank(0);
    TriedRank(1);
  }

  /** Section 4.2.2 of FIPS 180-4: the first 32 bits of the fractional parts of the cube roots of
      the first 64 primes. */
  lemma KIsCubeRoot(t: nat) returns (p: nat, c: nat)
    requires t < 64
    ensures IsPrime(p) && PrimesBelow(p) == t
    ensures c * c * c <= p * TWO96 < (c + 1) * (c + 1) * (c + 1) && K(t) == c % TWO32
  {
    p, c := Prime(t), Whole(t) * TWO32 + K(t);
    hide Prime, K;
    AllRows(t);
    Ranked(t);
    ModUnique(c, TWO32, Whole(t), K(t));
  }

  function InitialWord(t: nat): word32
    requires t < 8
  {
    var s := INITIAL_HASH;
    [s.a, s.b, s.c, s.d, s.e, s.f, s.g, s.h][t]
  }

  ghost predicate InitialAt(t: nat)
    requires t < 8
  {
    SquareRoot(Prime(t), (t / 2 + 1) * TWO32 + InitialWord(t))
  }

  lemma InitialRow()
    ensures InitialAt(0) && InitialAt(1) && InitialAt(2) && InitialAt(3)
    ensures InitialAt(4) && InitialAt(5) && InitialAt(6) && InitialAt(7)
  {
  }

  lemma InitialIs(t: nat)
    requires t < 8 && InitialAt(t)
    ensures SquareRoot(Prime(t), (t / 2 + 1) * TWO32 + InitialWord(t))
  {
  }

  /** Section 5.3.3 of FIPS 180-4: the first 32 bits of the fractional parts of the square roots of
      the first eight primes. */
  lemma InitialIsSquareRoot(t: nat) returns (p: nat, c: nat)
    requires t < 8
    ensures IsPrime(p) && PrimesBelow(p) == t
    ensures c * c <= p * TWO64 < (c + 1) * (c + 1) && InitialWord(t) == c % TWO32
  {
    p, c := Prime(t), (t / 2 + 1) * TWO32 + InitialWord(t);
    hide Prime, InitialAt;
    InitialRow();
    Ranked(t);
    assert InitialAt(t);
    InitialIs(t);
    ModUnique(c, TWO32, t / 2 + 1, InitialWord(t));
  }
}
