/** What sections 4.2.2 and 5.3.3 of FIPS 180-4 say of the constants: the first 32 bits of the
    fractional parts of the roots of the first primes. */
module Fips180Constants {
  import opened Fips180

  // ---------------------------------------------------------------- the first primes

  ghost predicate IsPrime(n: nat) {
    n >= 2 && forall d :: 2 <= d < n ==> n % d != 0
  }

  // q is the next prime after p.
  ghost predicate Follows(p: nat, q: nat) {
    p < q && IsPrime(q) && forall n :: p < n < q ==> !IsPrime(n)
  }

  function PrimeRow(r: nat): (p: seq<nat>)
    ensures |p| == 8
  {
    match r
    case 0 => [2, 3, 5, 7, 11, 13, 17, 19]
    case 1 => [23, 29, 31, 37, 41, 43, 47, 53]
    case 2 => [59, 61, 67, 71, 73, 79, 83, 89]
    case 3 => [97, 101, 103, 107, 109, 113, 127, 131]
    case 4 => [137, 139, 149, 151, 157, 163, 167, 173]
    case 5 => [179, 181, 191, 193, 197, 199, 211, 223]
    case 6 => [227, 229, 233, 239, 241, 251, 257, 263]
    case _ => [269, 271, 277, 281, 283, 293, 307, 311]
  }

  function Primes(): (p: seq<nat>)
    ensures |p| == 64
  {
    seq(64, t requires 0 <= t < 64 => PrimeRow(t / 8)[t % 8])
  }

  // A prime up to 17 properly divides n.
  predicate SmallFactor(n: nat) {
    || (n % 3 == 0 && n > 3) || (n % 5 == 0 && n > 5) || (n % 7 == 0 && n > 7)
    || (n % 11 == 0 && n > 11) || (n % 13 == 0 && n > 13) || (n % 17 == 0 && n > 17)
  }

  // Every second number between p and q, at most six of them, has a small factor.
  predicate OddsSplit(p: nat, q: nat) {
    && (p + 2 < q ==> SmallFactor(p + 2)) && (p + 4 < q ==> SmallFactor(p + 4))
    && (p + 6 < q ==> SmallFactor(p + 6)) && (p + 8 < q ==> SmallFactor(p + 8))
    && (p + 10 < q ==> SmallFactor(p + 10)) && (p + 12 < q ==> SmallFactor(p + 12))
    && q <= p + 14
  }

  lemma FactorIsProper(n: nat)
    requires SmallFactor(n)
    ensures !IsPrime(n)
  {
  }

  lemma Quotient(n: nat, d: nat) returns (q: nat)
    requires 0 < d && n % d == 0
    ensures n == d * q
  {
    q := n / d;
  }

  lemma Multiple(n: nat, d: nat, q: nat)
    requires 0 < d && n == d * q
    ensures n % d == 0
  {
    var k := q - n / d;
    assert d * k == n % d;
    Scaled(d, k);
  }

  lemma Product(a: nat, b: nat)
    ensures a * b >= 0
  {
  }

  lemma Scaled(d: int, k: int)
    requires d >= 0
    ensures k > 0 ==> d * k >= d
    ensures k < 0 ==> d * k <= -d
  {
    if k > 0 {
      Product(d, k - 1);
      assert d * k == d * (k - 1) + d;
    } else if k < 0 {
      Product(d, -k - 1);
      assert d * k == -(d * (-k - 1)) - d;
    }
  }

  lemma Divides(n: nat, d: nat, e: nat)
    requires 0 < d && 0 < e && n % d == 0 && d % e == 0
    ensures n % e == 0
  {
    var q := Quotient(n, d);
    var p := Quotient(d, e);
    assert n == e * (p * q);
    Multiple(n, e, p * q);
  }

  // Every number from 2 to 18 has a prime factor up to 17.
  lemma LeastFactor(d: nat) returns (e: nat)
    requires 2 <= d <= 18
    ensures e in {2, 3, 5, 7, 11, 13, 17} && d % e == 0 && e <= d
  {
    e := if d % 2 == 0 then 2 else if d % 3 == 0 then 3 else if d % 5 == 0 then 5 else d;
  }

  // Below 19 * 19, whatever has no factor up to 17 is prime.
  lemma NoSmallFactorIsPrime(n: nat)
    requires 17 < n < 361 && n % 2 == 1 && !SmallFactor(n)
    ensures IsPrime(n)
  {
    forall d | 2 <= d < n
      ensures n % d != 0
    {
      if n % d == 0 {
        var q := Quotient(n, d);
        HasFactor(n, d, q);
      }
    }
  }

  lemma BigProduct(d: nat, q: nat)
    requires d >= 19 && q >= 19
    ensures d * q >= 361
  {
    assert (d - 19) * (q - 19) >= 0;
  }

  lemma SmallSide(d: nat, q: nat)
    requires 17 < d * q < 361 && 2 <= d < d * q
    ensures 2 <= d <= 18 || 2 <= q <= 18
  {
    if d >= 19 && q >= 19 {
      BigProduct(d, q);
    }
    Scaled(d, 1 - q);
  }

  lemma HasFactor(n: nat, d: nat, q: nat)
    requires 17 < n < 361 && n == d * q && 2 <= d < n
    ensures n % 2 == 0 || SmallFactor(n)
  {
    SmallSide(d, q);
    var s := if d <= 18 then d else q;
    Multiple(n, s, if s == d then q else d);
    var e := LeastFactor(s);
    Divides(n, s, e);
  }

  lemma OddSplits(p: nat, q: nat, n: nat)
    requires OddsSplit(p, q) && p % 2 == 1 && p < n < q && n % 2 == 1
    ensures SmallFactor(n)
  {
    hide SmallFactor;
    assert n == p + 2 || n == p + 4 || n == p + 6 || n == p + 8 || n == p + 10 || n == p + 12;
  }

  lemma Gap(p: nat, q: nat)
    requires p < q < 361 && p % 2 == 1 && q % 2 == 1 && OddsSplit(p, q)
    requires q <= 17 ==> q in {5, 7, 11, 13, 17}
    requires q > 17 ==> !SmallFactor(q)
    ensures Follows(p, q)
  {
    if q > 17 {
      NoSmallFactorIsPrime(q);
    } else {
      SmallPrime(q);
    }
    forall n | p < n < q
      ensures !IsPrime(n)
    {
      if n % 2 == 1 {
        OddSplits(p, q, n);
        FactorIsProper(n);
      } else {
        assert n % 2 == 0 && n > 2;
      }
    }
  }

  lemma SmallPrime(q: nat)
    requires q in {5, 7, 11, 13, 17}
    ensures IsPrime(q)
  {
  }

  lemma FirstPrimes()
    ensures Follows(1, 2) && Follows(2, 3)
  {
  }

  // The entries of one row follow one another, and the first follows the row before.
  ghost predicate Row(r: nat) {
    var p := PrimeRow(r);
    && Follows(if r > 0 then PrimeRow(r - 1)[7] else 1, p[0])
    && Follows(p[0], p[1]) && Follows(p[1], p[2]) && Follows(p[2], p[3]) && Follows(p[3], p[4])
    && Follows(p[4], p[5]) && Follows(p[5], p[6]) && Follows(p[6], p[7])
  }

  lemma PrimeRow0()
    ensures Row(0)
  {
    hide Follows;
    FirstPrimes(); Gap(3, 5); Gap(5, 7); Gap(7, 11);
    Gap(11, 13); Gap(13, 17); Gap(17, 19);
  }

  lemma PrimeRow1()
    ensures Row(1)
  {
    hide Follows;
    Gap(19, 23); Gap(23, 29); Gap(29, 31); Gap(31, 37);
    Gap(37, 41); Gap(41, 43); Gap(43, 47); Gap(47, 53);
  }

  lemma PrimeRow2()
    ensures Row(2)
  {
    hide Follows;
    Gap(53, 59); Gap(59, 61); Gap(61, 67); Gap(67, 71);
    Gap(71, 73); Gap(73, 79); Gap(79, 83); Gap(83, 89);
  }

  lemma PrimeRow3()
    ensures Row(3)
  {
    hide Follows;
    Gap(89, 97); Gap(97, 101); Gap(101, 103); Gap(103, 107);
    Gap(107, 109); Gap(109, 113); Gap(113, 127); Gap(127, 131);
  }

  lemma PrimeRow4()
    ensures Row(4)
  {
    hide Follows;
    Gap(131, 137); Gap(137, 139); Gap(139, 149); Gap(149, 151);
    Gap(151, 157); Gap(157, 163); Gap(163, 167); Gap(167, 173);
  }

  lemma PrimeRow5()
    ensures Row(5)
  {
    hide Follows;
    Gap(173, 179); Gap(179, 181); Gap(181, 191); Gap(191, 193);
    Gap(193, 197); Gap(197, 199); Gap(199, 211); Gap(211, 223);
  }

  lemma PrimeRow6()
    ensures Row(6)
  {
    hide Follows;
    Gap(223, 227); Gap(227, 229); Gap(229, 233); Gap(233, 239);
    Gap(239, 241); Gap(241, 251); Gap(251, 257); Gap(257, 263);
  }

  lemma PrimeRow7()
    ensures Row(7)
  {
    hide Follows;
    Gap(263, 269); Gap(269, 271); Gap(271, 277); Gap(277, 281);
    Gap(281, 283); Gap(283, 293); Gap(293, 307); Gap(307, 311);
  }

  // ---------------------------------------------------------------- the roots

  function Cube(x: nat): nat {
    x * x * x
  }

  // c is the integer part of the cube root of p and k the first 32 bits of its fraction.
  ghost predicate IsCubeRoot(k: Word, p: nat, c: nat) {
    && Cube(c) <= p < Cube(c + 1)
    && Cube(c * 0x1_0000_0000 + k as int) <= p * 0x1_0000_0000_0000_0000_0000_0000
    && p * 0x1_0000_0000_0000_0000_0000_0000 < Cube(c * 0x1_0000_0000 + k as int + 1)
  }

  ghost predicate HasCubeRoot(k: Word, p: nat) {
    exists c :: IsCubeRoot(k, p, c)
  }

  ghost predicate CubeRow(r: nat, from: nat)
    requires from <= 4
  {
    forall i :: from <= i < from + 4 ==> HasCubeRoot(KRow(r)[i], PrimeRow(r)[i])
  }

  lemma CubeRoot(r: nat, i: nat, k: Word, p: nat, c: nat)
    requires i < 8 && KRow(r)[i] == k && PrimeRow(r)[i] == p && IsCubeRoot(k, p, c)
    ensures HasCubeRoot(KRow(r)[i], PrimeRow(r)[i])
  {
  }

  lemma CubeRow0()
    ensures CubeRow(0, 0) && CubeRow(0, 4)
  {
    hide HasCubeRoot;
    CubeRoot(0, 0, 0x428a2f98, 2, 1); CubeRoot(0, 1, 0x71374491, 3, 1);
    CubeRoot(0, 2, 0xb5c0fbcf, 5, 1); CubeRoot(0, 3, 0xe9b5dba5, 7, 1);
    CubeRoot(0, 4, 0x3956c25b, 11, 2); CubeRoot(0, 5, 0x59f111f1, 13, 2);
    CubeRoot(0, 6, 0x923f82a4, 17, 2); CubeRoot(0, 7, 0xab1c5ed5, 19, 2);
  }

  lemma CubeRow1()
    ensures CubeRow(1, 0) && CubeRow(1, 4)
  {
    hide HasCubeRoot;
    CubeRoot(1, 0, 0xd807aa98, 23, 2); CubeRoot(1, 1, 0x12835b01, 29, 3);
    CubeRoot(1, 2, 0x243185be, 31, 3); CubeRoot(1, 3, 0x550c7dc3, 37, 3);
    CubeRoot(1, 4, 0x72be5d74, 41, 3); CubeRoot(1, 5, 0x80deb1fe, 43, 3);
    CubeRoot(1, 6, 0x9bdc06a7, 47, 3); CubeRoot(1, 7, 0xc19bf174, 53, 3);
  }

  lemma CubeRow2()
    ensures CubeRow(2, 0) && CubeRow(2, 4)
  {
    hide HasCubeRoot;
    CubeRoot(2, 0, 0xe49b69c1, 59, 3); CubeRoot(2, 1, 0xefbe4786, 61, 3);
    CubeRoot(2, 2, 0x0fc19dc6, 67, 4); CubeRoot(2, 3, 0x240ca1cc, 71, 4);
    CubeRoot(2, 4, 0x2de92c6f, 73, 4); CubeRoot(2, 5, 0x4a7484aa, 79, 4);
    CubeRoot(2, 6, 0x5cb0a9dc, 83, 4); CubeRoot(2, 7, 0x76f988da, 89, 4);
  }

  lemma CubeRow3()
    ensures CubeRow(3, 0) && CubeRow(3, 4)
  {
    hide HasCubeRoot;
    CubeRoot(3, 0, 0x983e5152, 97, 4); CubeRoot(3, 1, 0xa831c66d, 101, 4);
    CubeRoot(3, 2, 0xb00327c8, 103, 4); CubeRoot(3, 3, 0xbf597fc7, 107, 4);
    CubeRoot(3, 4, 0xc6e00bf3, 109, 4); CubeRoot(3, 5, 0xd5a79147, 113, 4);
    CubeRoot(3, 6, 0x06ca6351, 127, 5); CubeRoot(3, 7, 0x14292967, 131, 5);
  }

  lemma CubeRow4()
    ensures CubeRow(4, 0) && CubeRow(4, 4)
  {
    hide HasCubeRoot;
    CubeRoot(4, 0, 0x27b70a85, 137, 5); CubeRoot(4, 1, 0x2e1b2138, 139, 5);
    CubeRoot(4, 2, 0x4d2c6dfc, 149, 5); CubeRoot(4, 3, 0x53380d13, 151, 5);
    CubeRoot(4, 4, 0x650a7354, 157, 5); CubeRoot(4, 5, 0x766a0abb, 163, 5);
    CubeRoot(4, 6, 0x81c2c92e, 167, 5); CubeRoot(4, 7, 0x92722c85, 173, 5);
  }

  lemma CubeRow5()
    ensures CubeRow(5, 0) && CubeRow(5, 4)
  {
    hide HasCubeRoot;
    CubeRoot(5, 0, 0xa2bfe8a1, 179, 5); CubeRoot(5, 1, 0xa81a664b, 181, 5);
    CubeRoot(5, 2, 0xc24b8b70, 191, 5); CubeRoot(5, 3, 0xc76c51a3, 193, 5);
    CubeRoot(5, 4, 0xd192e819, 197, 5); CubeRoot(5, 5, 0xd6990624, 199, 5);
    CubeRoot(5, 6, 0xf40e3585, 211, 5); CubeRoot(5, 7, 0x106aa070, 223, 6);
  }

  lemma CubeRow6()
    ensures CubeRow(6, 0) && CubeRow(6, 4)
  {
    hide HasCubeRoot;
    CubeRoot(6, 0, 0x19a4c116, 227, 6); CubeRoot(6, 1, 0x1e376c08, 229, 6);
    CubeRoot(6, 2, 0x2748774c, 233, 6); CubeRoot(6, 3, 0x34b0bcb5, 239, 6);
    CubeRoot(6, 4, 0x391c0cb3, 241, 6); CubeRoot(6, 5, 0x4ed8aa4a, 251, 6);
    CubeRoot(6, 6, 0x5b9cca4f, 257, 6); CubeRoot(6, 7, 0x682e6ff3, 263, 6);
  }

  lemma CubeRow7()
    ensures CubeRow(7, 0) && CubeRow(7, 4)
  {
    hide HasCubeRoot;
    CubeRoot(7, 0, 0x748f82ee, 269, 6); CubeRoot(7, 1, 0x78a5636f, 271, 6);
    CubeRoot(7, 2, 0x84c87814, 277, 6); CubeRoot(7, 3, 0x8cc70208, 281, 6);
    CubeRoot(7, 4, 0x90befffa, 283, 6); CubeRoot(7, 5, 0xa4506ceb, 293, 6);
    CubeRoot(7, 6, 0xbef9a3f7, 307, 6); CubeRoot(7, 7, 0xc67178f2, 311, 6);
  }

  // The same for square roots.
  function Square(x: nat): nat {
    x * x
  }

  ghost predicate IsSquareRoot(h: Word, p: nat, c: nat) {
    && Square(c) <= p < Square(c + 1)
    && Square(c * 0x1_0000_0000 + h as int) <= p * 0x1_0000_0000_0000_0000
    && p * 0x1_0000_0000_0000_0000 < Square(c * 0x1_0000_0000 + h as int + 1)
  }

  ghost predicate HasSquareRoot(h: Word, p: nat) {
    exists c :: IsSquareRoot(h, p, c)
  }

  lemma SquareRoot(i: nat, h: Word, p: nat, c: nat)
    requires i < 8 && H0()[i] == h && PrimeRow(0)[i] == p && IsSquareRoot(h, p, c)
    ensures HasSquareRoot(H0()[i], PrimeRow(0)[i])
  {
  }

  lemma SquareRow()
    ensures forall i :: 0 <= i < 8 ==> HasSquareRoot(H0()[i], PrimeRow(0)[i])
  {
    hide HasSquareRoot;
    SquareRoot(0, 0x6a09e667, 2, 1); SquareRoot(1, 0xbb67ae85, 3, 1);
    SquareRoot(2, 0x3c6ef372, 5, 2); SquareRoot(3, 0xa54ff53a, 7, 2);
    SquareRoot(4, 0x510e527f, 11, 3); SquareRoot(5, 0x9b05688c, 13, 3);
    SquareRoot(6, 0x1f83d9ab, 17, 4); SquareRoot(7, 0x5be0cd19, 19, 4);
  }

  // ---------------------------------------------------------------- the tables

  lemma AnyRow(r: nat)
    requires r < 8
    ensures Row(r) && CubeRow(r, 0) && CubeRow(r, 4)
  {
    hide Row, CubeRow;
    match r
    case 0 => PrimeRow0(); CubeRow0();
    case 1 => PrimeRow1(); CubeRow1();
    case 2 => PrimeRow2(); CubeRow2();
    case 3 => PrimeRow3(); CubeRow3();
    case 4 => PrimeRow4(); CubeRow4();
    case 5 => PrimeRow5(); CubeRow5();
    case 6 => PrimeRow6(); CubeRow6();
    case _ => PrimeRow7(); CubeRow7();
  }

  /** The numbers listed are the first 64 primes, each the next after the one before. */
  lemma PrimesAreTheFirst(t: nat)
    requires t < 64
    ensures Follows(if t > 0 then Primes()[t - 1] else 1, Primes()[t])
  {
    hide Follows, PrimeRow, Primes, Row, CubeRow;
    AnyRow(t / 8);
    PlaceInRow(t);
    RowEntry(t / 8, t % 8);
  }

  lemma RowEntry(r: nat, i: nat)
    requires Row(r) && i < 8
    ensures Follows(if i > 0 then PrimeRow(r)[i - 1] else if r > 0 then PrimeRow(r - 1)[7] else 1, PrimeRow(r)[i])
  {
    hide Follows, PrimeRow;
  }

  lemma PlaceInRow(t: nat)
    requires t < 64
    ensures Primes()[t] == PrimeRow(t / 8)[t % 8]
    ensures t > 0 ==> Primes()[t - 1] == if t % 8 > 0 then PrimeRow(t / 8)[t % 8 - 1] else PrimeRow(t / 8 - 1)[7]
    ensures t < 8 <==> t / 8 == 0
  {
    hide PrimeRow;
    if t % 8 > 0 {
      assert (t - 1) / 8 == t / 8 && (t - 1) % 8 == t % 8 - 1;
    } else if t > 0 {
      assert (t - 1) / 8 == t / 8 - 1 && (t - 1) % 8 == 7;
    }
  }

  /** Section 4.2.2: each round constant is the first 32 bits of the fractional part of the cube
      root of its prime. */
  lemma RoundConstantsAreCubeRoots(t: nat)
    requires t < 64
    ensures HasCubeRoot(K()[t], Primes()[t])
  {
    hide HasCubeRoot, KRow, PrimeRow;
    AnyRow(t / 8);
  }

  /** Section 5.3.3: each word of the initial value is the first 32 bits of the fractional part of
      the square root of its prime. */
  lemma InitialValueIsSquareRoots(t: nat)
    requires t < 8
    ensures HasSquareRoot(H0()[t], Primes()[t])
  {
    hide HasSquareRoot, PrimeRow, H0;
    SquareRow();
  }
}
