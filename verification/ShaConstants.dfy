/** Where the constants of SHA-256 come from: the first bits of the fractional parts of roots of
    the first primes (FIPS 180-4, sections 4.2.2 and 5.3.3). */
module ShaConstants {
  import opened Bits
  import Sha256

  // ----- Primes -----

  predicate IsPrime(n: nat)
  {
    n >= 2 && forall d :: 2 <= d < n ==> n % d != 0
  }

  /** Between p and q there is no prime, and q is one. */
  ghost predicate NextPrime(p: nat, q: nat)
  {
    p < q && IsPrime(q) && forall n :: p < n < q ==> !IsPrime(n)
  }

  /** What is left of the numbers below 324 when the multiples of the first primes are struck out. */
  predicate Sieved(n: nat)
  {
    && n >= 2 && (n % 2 != 0 || n == 2) && (n % 3 != 0 || n == 3) && (n % 5 != 0 || n == 5) && (n % 7 != 0 || n == 7)
    && (n % 11 != 0 || n == 11) && (n % 13 != 0 || n == 13) && (n % 17 != 0 || n == 17)
  }

  lemma MultipleOf(n: nat, a: nat, b: nat)
    requires n == a * b && b > 0
    ensures n % b == 0
  {
    Factor(n, b, n % b);
    Product(a - n / b, b);
    assert n % b == (a - n / b) * b;
  }

  lemma Product(q: int, b: nat)
    requires b > 0
    ensures (q >= 1 ==> q * b >= b) && (q <= -1 ==> q * b <= 0 - b)
  {
    if q >= 1 {
      assert q * b == b + (q - 1) * b;
    } else if q <= -1 {
      assert q * b == 0 - b + (q + 1) * b;
    }
  }

  lemma Factor(n: nat, d: nat, r: nat)
    requires d > 0 && n % d == r
    ensures n == n / d * d + r
  {
  }

  /** A divisor of a divisor. */
  lemma Through(n: nat, d: nat, p: nat)
    requires d > 0 && p > 0 && n % d == 0 && d % p == 0
    ensures n % p == 0
  {
    var a, b := n / d, d / p;
    Factor(n, d, 0);
    Factor(d, p, 0);
    assert n == a * (b * p) == (a * b) * p;
    MultipleOf(n, a * b, p);
  }

  lemma Struck(n: nat, d: nat)
    requires 2 <= d < 18 && d < n && n % d == 0
    ensures !Sieved(n)
  {
    var p := if d % 2 == 0 then 2 else if d % 3 == 0 then 3 else if d % 5 == 0 then 5 else if d % 7 == 0 then 7 else d;
    SmallFactor(d, p);
    Through(n, d, p);
  }

  lemma SmallFactor(d: nat, p: nat)
    requires 2 <= d < 18 && p == if d % 2 == 0 then 2 else if d % 3 == 0 then 3 else if d % 5 == 0 then 5 else if d % 7 == 0 then 7 else d
    ensures d % p == 0 && p <= d && (p == 2 || p == 3 || p == 5 || p == 7 || p == 11 || p == 13 || p == 17)
  {
  }

  lemma SmallerOne(n: nat, d: nat) returns (e: nat)
    requires n < 324 && 2 <= d < n && n % d == 0
    ensures 2 <= e < 18 && e < n && n % e == 0
  {
    var b := n / d;
    Factor(n, d, 0);
    if d < 18 {
      e := d;
    } else {
      e := b;
      Quotient(n, d, b);
      MultipleOf(n, d, b);
    }
  }

  lemma Quotient(n: nat, d: nat, b: nat)
    requires n < 324 && 18 <= d < n && n == b * d
    ensures 2 <= b < 18
  {
    var e := b - 18;
    assert b * d == 18 * d + e * d;
  }

  lemma {:induction false} SievedIs(n: nat)
    requires n < 324
    ensures Sieved(n) <==> IsPrime(n)
  {
    if n >= 2 {
      if Sieved(n) {
        forall d | 2 <= d < n
          ensures n % d != 0
        {
          if n % d == 0 {
            var e := SmallerOne(n, d);
            Struck(n, e);
          }
        }
      } else {
        var p := if n % 2 == 0 then 2 else if n % 3 == 0 then 3 else if n % 5 == 0 then 5 else if n % 7 == 0 then 7
                 else if n % 11 == 0 then 11 else if n % 13 == 0 then 13 else 17;
        assert 2 <= p < n && n % p == 0;
      }
    }
  }

  predicate AllStruck(p: nat, q: nat)
    decreases q - p
  {
    p + 1 >= q || (!Sieved(p + 1) && AllStruck(p + 1, q))
  }

  lemma {:induction false} StruckBetween(p: nat, q: nat, n: nat)
    requires AllStruck(p, q) && p < n < q
    ensures !Sieved(n)
    decreases q - p
  {
    if p + 1 < n {
      StruckBetween(p + 1, q, n);
    }
  }

  lemma {:induction false} Sift(p: nat, q: nat)
    requires p < q < 324 && Sieved(q) && AllStruck(p, q)
    ensures NextPrime(p, q)
  {
    SievedIs(q);
    forall n | p < n < q
      ensures !IsPrime(n)
    {
      StruckBetween(p, q, n);
      SievedIs(n);
    }
  }

  // ----- Roots -----

  function Cube(n: nat): nat
  {
    n * n * n
  }

  function Square(n: nat): nat
  {
    n * n
  }

  /** The first 32 bits of the fractional part of the cube root of p: the last 32 bits of
      the root, cut after them. */
  ghost predicate CubeRootBits(p: nat, bits: word)
  {
    exists n: nat :: CubeRootCut(p, n) && n % 0x1_0000_0000 == bits
  }

  /** n is the cube root of p, cut after 32 bits of its fractional part. */
  predicate CubeRootCut(p: nat, n: nat)
  {
    Cube(n) <= p * 0x1_0000_0000_0000_0000_0000_0000 < Cube(n + 1)
  }

  predicate SquareRootCut(p: nat, n: nat)
  {
    Square(n) <= p * 0x1_0000_0000_0000_0000 < Square(n + 1)
  }

  ghost predicate SquareRootBits(p: nat, bits: word)
  {
    exists n: nat :: SquareRootCut(p, n) && n % 0x1_0000_0000 == bits
  }

  lemma CubeRoot(p: nat, bits: word, r: nat)
    requires CubeRootCut(p, 0x1_0000_0000 * r + bits)
    ensures CubeRootBits(p, bits)
  {
    assert (0x1_0000_0000 * r + bits) % 0x1_0000_0000 == bits;
  }

  lemma SquareRoot(p: nat, bits: word, r: nat)
    requires SquareRootCut(p, 0x1_0000_0000 * r + bits)
    ensures SquareRootBits(p, bits)
  {
    assert (0x1_0000_0000 * r + bits) % 0x1_0000_0000 == bits;
  }

  lemma MonotoneCube(a: nat, b: nat)
    requires a <= b
    ensures Cube(a) <= Cube(b)
  {
    assert a * a <= b * b;
    assert a * a * a <= b * b * a <= b * b * b;
  }

  /** There is only one such word. */
  lemma {:induction false} OneCubeRoot(p: nat, a: word, b: word)
    requires CubeRootBits(p, a) && CubeRootBits(p, b)
    ensures a == b
  {
    var x: nat :| CubeRootCut(p, x) && x % 0x1_0000_0000 == a;
    var y: nat :| CubeRootCut(p, y) && y % 0x1_0000_0000 == b;
    OneRoot(x, y, p);
  }

  lemma OneRoot(x: nat, y: nat, p: nat)
    requires CubeRootCut(p, x) && CubeRootCut(p, y)
    ensures x == y
  {
    if x < y {
      MonotoneCube(x + 1, y);
    } else if y < x {
      MonotoneCube(y + 1, x);
    }
  }

  // ----- The constants -----

  /** The first 64 primes. */
  function Prime(t: nat): nat
    requires t < 64
  {
    match t
    case 0 => 2 case 1 => 3 case 2 => 5 case 3 => 7 case 4 => 11 case 5 => 13 case 6 => 17 case 7 => 19
    case 8 => 23 case 9 => 29 case 10 => 31 case 11 => 37 case 12 => 41 case 13 => 43 case 14 => 47 case 15 => 53
    case 16 => 59 case 17 => 61 case 18 => 67 case 19 => 71 case 20 => 73 case 21 => 79 case 22 => 83 case 23 => 89
    case 24 => 97 case 25 => 101 case 26 => 103 case 27 => 107 case 28 => 109 case 29 => 113 case 30 => 127 case 31 => 131
    case 32 => 137 case 33 => 139 case 34 => 149 case 35 => 151 case 36 => 157 case 37 => 163 case 38 => 167 case 39 => 173
    case 40 => 179 case 41 => 181 case 42 => 191 case 43 => 193 case 44 => 197 case 45 => 199 case 46 => 211 case 47 => 223
    case 48 => 227 case 49 => 229 case 50 => 233 case 51 => 239 case 52 => 241 case 53 => 251 case 54 => 257 case 55 => 263
    case 56 => 269 case 57 => 271 case 58 => 277 case 59 => 281 case 60 => 283 case 61 => 293 case 62 => 307 case _ => 311
  }

  /** They are the first primes, in order and with none left out. */
  lemma {:induction false} PrimesAre(t: nat)
    requires t < 63
    ensures Prime(0) == 2 && IsPrime(2) && NextPrime(Prime(t), Prime(t + 1))
  {
    SievedIs(2);
    if t < 16 {
      Primes0(t);
    } else if t < 32 {
      Primes16(t);
    } else if t < 48 {
      Primes32(t);
    } else {
      Primes48(t);
    }
  }

  lemma {:induction false} Primes0(t: nat)
    requires 0 <= t < 16
    ensures NextPrime(Prime(t), Prime(t + 1))
  {
    match t
    case 0 => Sift(2, 3);
    case 1 => Sift(3, 5);
    case 2 => Sift(5, 7);
    case 3 => Sift(7, 11);
    case 4 => Sift(11, 13);
    case 5 => Sift(13, 17);
    case 6 => Sift(17, 19);
    case 7 => Sift(19, 23);
    case 8 => Sift(23, 29);
    case 9 => Sift(29, 31);
    case 10 => Sift(31, 37);
    case 11 => Sift(37, 41);
    case 12 => Sift(41, 43);
    case 13 => Sift(43, 47);
    case 14 => Sift(47, 53);
    case _ => Sift(53, 59);
  }

  lemma {:induction false} Primes16(t: nat)
    requires 16 <= t < 32
    ensures NextPrime(Prime(t), Prime(t + 1))
  {
    match t
    case 16 => Sift(59, 61);
    case 17 => Sift(61, 67);
    case 18 => Sift(67, 71);
    case 19 => Sift(71, 73);
    case 20 => Sift(73, 79);
    case 21 => Sift(79, 83);
    case 22 => Sift(83, 89);
    case 23 => Sift(89, 97);
    case 24 => Sift(97, 101);
    case 25 => Sift(101, 103);
    case 26 => Sift(103, 107);
    case 27 => Sift(107, 109);
    case 28 => Sift(109, 113);
    case 29 => Sift(113, 127);
    case 30 => Sift(127, 131);
    case _ => Sift(131, 137);
  }

  lemma {:induction false} Primes32(t: nat)
    requires 32 <= t < 48
    ensures NextPrime(Prime(t), Prime(t + 1))
  {
    match t
    case 32 => Sift(137, 139);
    case 33 => Sift(139, 149);
    case 34 => Sift(149, 151);
    case 35 => Sift(151, 157);
    case 36 => Sift(157, 163);
    case 37 => Sift(163, 167);
    case 38 => Sift(167, 173);
    case 39 => Sift(173, 179);
    case 40 => Sift(179, 181);
    case 41 => Sift(181, 191);
    case 42 => Sift(191, 193);
    case 43 => Sift(193, 197);
    case 44 => Sift(197, 199);
    case 45 => Sift(199, 211);
    case 46 => Sift(211, 223);
    case _ => Sift(223, 227);
  }

  lemma {:induction false} Primes48(t: nat)
    requires 48 <= t < 63
    ensures NextPrime(Prime(t), Prime(t + 1))
  {
    match t
    case 48 => Sift(227, 229);
    case 49 => Sift(229, 233);
    case 50 => Sift(233, 239);
    case 51 => Sift(239, 241);
    case 52 => Sift(241, 251);
    case 53 => Sift(251, 257);
    case 54 => Sift(257, 263);
    case 55 => Sift(263, 269);
    case 56 => Sift(269, 271);
    case 57 => Sift(271, 277);
    case 58 => Sift(277, 281);
    case 59 => Sift(281, 283);
    case 60 => Sift(283, 293);
    case 61 => Sift(293, 307);
    case _ => Sift(307, 311);
  }

  /** The word of round t: from the cube root of the prime with that number. */
  lemma {:induction false} RoundWord(t: nat)
    requires t < 64
    ensures CubeRootBits(Prime(t), Sha256.K(t))
  {
    if t < 16 {
      Words0(t);
    } else if t < 32 {
      Words16(t);
    } else if t < 48 {
      Words32(t);
    } else {
      Words48(t);
    }
  }

  lemma {:induction false} Words0(t: nat)
    requires 0 <= t < 16
    ensures CubeRootBits(Prime(t), Sha256.K(t))
  {
    match t
    case 0 => CubeRoot(2, 0x428a2f98, 1);
    case 1 => CubeRoot(3, 0x71374491, 1);
    case 2 => CubeRoot(5, 0xb5c0fbcf, 1);
    case 3 => CubeRoot(7, 0xe9b5dba5, 1);
    case 4 => CubeRoot(11, 0x3956c25b, 2);
    case 5 => CubeRoot(13, 0x59f111f1, 2);
    case 6 => CubeRoot(17, 0x923f82a4, 2);
    case 7 => CubeRoot(19, 0xab1c5ed5, 2);
    case 8 => CubeRoot(23, 0xd807aa98, 2);
    case 9 => CubeRoot(29, 0x12835b01, 3);
    case 10 => CubeRoot(31, 0x243185be, 3);
    case 11 => CubeRoot(37, 0x550c7dc3, 3);
    case 12 => CubeRoot(41, 0x72be5d74, 3);
    case 13 => CubeRoot(43, 0x80deb1fe, 3);
    case 14 => CubeRoot(47, 0x9bdc06a7, 3);
    case _ => CubeRoot(53, 0xc19bf174, 3);
  }

  lemma {:induction false} Words16(t: nat)
    requires 16 <= t < 32
    ensures CubeRootBits(Prime(t), Sha256.K(t))
  {
    match t
    case 16 => CubeRoot(59, 0xe49b69c1, 3);
    case 17 => CubeRoot(61, 0xefbe4786, 3);
    case 18 => CubeRoot(67, 0x0fc19dc6, 4);
    case 19 => CubeRoot(71, 0x240ca1cc, 4);
    case 20 => CubeRoot(73, 0x2de92c6f, 4);
    case 21 => CubeRoot(79, 0x4a7484aa, 4);
    case 22 => CubeRoot(83, 0x5cb0a9dc, 4);
    case 23 => CubeRoot(89, 0x76f988da, 4);
    case 24 => CubeRoot(97, 0x983e5152, 4);
    case 25 => CubeRoot(101, 0xa831c66d, 4);
    case 26 => CubeRoot(103, 0xb00327c8, 4);
    case 27 => CubeRoot(107, 0xbf597fc7, 4);
    case 28 => CubeRoot(109, 0xc6e00bf3, 4);
    case 29 => CubeRoot(113, 0xd5a79147, 4);
    case 30 => CubeRoot(127, 0x06ca6351, 5);
    case _ => CubeRoot(131, 0x14292967, 5);
  }

  lemma {:induction false} Words32(t: nat)
    requires 32 <= t < 48
    ensures CubeRootBits(Prime(t), Sha256.K(t))
  {
    match t
    case 32 => CubeRoot(137, 0x27b70a85, 5);
    case 33 => CubeRoot(139, 0x2e1b2138, 5);
    case 34 => CubeRoot(149, 0x4d2c6dfc, 5);
    case 35 => CubeRoot(151, 0x53380d13, 5);
    case 36 => CubeRoot(157, 0x650a7354, 5);
    case 37 => CubeRoot(163, 0x766a0abb, 5);
    case 38 => CubeRoot(167, 0x81c2c92e, 5);
    case 39 => CubeRoot(173, 0x92722c85, 5);
    case 40 => CubeRoot(179, 0xa2bfe8a1, 5);
    case 41 => CubeRoot(181, 0xa81a664b, 5);
    case 42 => CubeRoot(191, 0xc24b8b70, 5);
    case 43 => CubeRoot(193, 0xc76c51a3, 5);
    case 44 => CubeRoot(197, 0xd192e819, 5);
    case 45 => CubeRoot(199, 0xd6990624, 5);
    case 46 => CubeRoot(211, 0xf40e3585, 5);
    case _ => CubeRoot(223, 0x106aa070, 6);
  }

  lemma {:induction false} Words48(t: nat)
    requires 48 <= t < 64
    ensures CubeRootBits(Prime(t), Sha256.K(t))
  {
    match t
    case 48 => CubeRoot(227, 0x19a4c116, 6);
    case 49 => CubeRoot(229, 0x1e376c08, 6);
    case 50 => CubeRoot(233, 0x2748774c, 6);
    case 51 => CubeRoot(239, 0x34b0bcb5, 6);
    case 52 => CubeRoot(241, 0x391c0cb3, 6);
    case 53 => CubeRoot(251, 0x4ed8aa4a, 6);
    case 54 => CubeRoot(257, 0x5b9cca4f, 6);
    case 55 => CubeRoot(263, 0x682e6ff3, 6);
    case 56 => CubeRoot(269, 0x748f82ee, 6);
    case 57 => CubeRoot(271, 0x78a5636f, 6);
    case 58 => CubeRoot(277, 0x84c87814, 6);
    case 59 => CubeRoot(281, 0x8cc70208, 6);
    case 60 => CubeRoot(283, 0x90befffa, 6);
    case 61 => CubeRoot(293, 0xa4506ceb, 6);
    case 62 => CubeRoot(307, 0xbef9a3f7, 6);
    case _ => CubeRoot(311, 0xc67178f2, 6);
  }

  /** The words a hash starts from: from the square roots of the first eight. */
  lemma {:induction false} FirstWords()
    ensures var v := Sha256.IV;
      SquareRootBits(Prime(0), v.a)
      && SquareRootBits(Prime(1), v.b)
      && SquareRootBits(Prime(2), v.c)
      && SquareRootBits(Prime(3), v.d)
      && SquareRootBits(Prime(4), v.e)
      && SquareRootBits(Prime(5), v.f)
      && SquareRootBits(Prime(6), v.g)
      && SquareRootBits(Prime(7), v.h)
  {
    SquareRoot(2, 0x6a09e667, 1);
    SquareRoot(3, 0xbb67ae85, 1);
    SquareRoot(5, 0x3c6ef372, 2);
    SquareRoot(7, 0xa54ff53a, 2);
    SquareRoot(11, 0x510e527f, 3);
    SquareRoot(13, 0x9b05688c, 3);
    SquareRoot(17, 0x1f83d9ab, 4);
    SquareRoot(19, 0x5be0cd19, 4);
  }
}
