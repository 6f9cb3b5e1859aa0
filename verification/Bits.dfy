/** Bitwise operations on unsigned integers kept as `nat`, with the C rules for
    32-bit words written out: what a 32-bit operation drops is dropped by `U32`. */
module Bits {


  /** A `uint8_t` and a `uint32_t`. */
  type byte = x: nat | x < 256
  type word = x: nat | x < 0x1_0000_0000

  /** The value kept by a `uint32_t`. */
  function U32(x: nat): (r: word)
    ensures x < 0x1_0000_0000 ==> r == x
  {
    x % 0x1_0000_0000
  }

  function Pow2(k: nat): (r: nat)
    ensures r >= 1
  {
    if k == 0 then 1 else 2 * Pow2(k - 1)
  }

  lemma {:induction false} Pow2Add(a: nat, b: nat)
    ensures Pow2(a + b) == Pow2(a) * Pow2(b)
  {
    if a > 0 {
      Pow2Add(a - 1, b);
      assert 2 * (Pow2(a - 1) * Pow2(b)) == (2 * Pow2(a - 1)) * Pow2(b);
    }
  }

  /** The powers that the 32-bit code shifts and masks by. */
  lemma Pow2Values()
    ensures Pow2(5) == 0x20 && Pow2(6) == 0x40 && Pow2(8) == 0x100 && Pow2(12) == 0x1000
    ensures Pow2(14) == 0x4000 && Pow2(16) == 0x1_0000 && Pow2(18) == 0x4_0000 && Pow2(20) == 0x10_0000
    ensures Pow2(24) == 0x100_0000 && Pow2(26) == 0x400_0000 && Pow2(32) == 0x1_0000_0000
  {
    assert Pow2(2) == 4;
    Pow2Add(2, 2);
    Pow2Add(4, 4);
    Pow2Add(8, 4);
    Pow2Add(12, 2);
    Pow2Add(8, 8);
    Pow2Add(16, 2);
    Pow2Add(16, 4);
    Pow2Add(16, 8);
    Pow2Add(24, 2);
    Pow2Add(16, 16);
  }

  /** Bitwise AND of two unsigned numbers. */
  function And(a: nat, b: nat): nat
  {
    if a == 0 || b == 0 then 0
    else 2 * And(a / 2, b / 2) + (if a % 2 == 1 && b % 2 == 1 then 1 else 0)
  }

  /** Bitwise OR of two unsigned numbers. */
  function Or(a: nat, b: nat): nat
    decreases a + b
  {
    if a == 0 then b
    else if b == 0 then a
    else 2 * Or(a / 2, b / 2) + (if a % 2 == 1 || b % 2 == 1 then 1 else 0)
  }

  lemma AndCons(h: nat, b: nat, g: nat, c: nat)
    requires b < 2 && c < 2
    ensures And(2 * h + b, 2 * g + c) == 2 * And(h, g) + (if b == 1 && c == 1 then 1 else 0)
  {
    var x, y := 2 * h + b, 2 * g + c;
    assert x / 2 == h && x % 2 == b && y / 2 == g && y % 2 == c;
    if x == 0 || y == 0 {
      assert And(h, g) == 0;
    }
  }

  lemma {:induction false} AndStep(a: nat, b: nat)
    ensures And(a, b) == 2 * And(a / 2, b / 2) + (if a % 2 == 1 && b % 2 == 1 then 1 else 0)
  {
    AndCons(a / 2, a % 2, b / 2, b % 2);
  }

  /** AND can be taken on the low k bits and on the rest separately. */
  lemma {:induction false} AndSplitBy(k: nat, p: nat, qa: nat, ra: nat, qb: nat, rb: nat, x: nat, y: nat)
    requires p == Pow2(k) && ra < p && rb < p && x == qa * p + ra && y == qb * p + rb
    ensures And(x, y) == And(qa, qb) * p + And(ra, rb)
  {
    AndSplitAt(k, qa, ra, qb, rb, x, y);
  }

  lemma {:induction false} AndSplit(k: nat, qa: nat, ra: nat, qb: nat, rb: nat)
    requires ra < Pow2(k) && rb < Pow2(k)
    ensures And(qa * Pow2(k) + ra, qb * Pow2(k) + rb) == And(qa, qb) * Pow2(k) + And(ra, rb)
  {
    AndSplitAt(k, qa, ra, qb, rb, qa * Pow2(k) + ra, qb * Pow2(k) + rb);
  }

  lemma {:induction false} AndSplitAt(k: nat, qa: nat, ra: nat, qb: nat, rb: nat, x: nat, y: nat)
    requires ra < Pow2(k) && rb < Pow2(k)
    requires x == qa * Pow2(k) + ra && y == qb * Pow2(k) + rb
    ensures And(x, y) == And(qa, qb) * Pow2(k) + And(ra, rb)
  {
    if k > 0 {
      var p := Pow2(k - 1);
      Halve(qa, p, ra, x);
      Halve(qb, p, rb, y);
      AndSplitAt(k - 1, qa, ra / 2, qb, rb / 2, x / 2, y / 2);
      AndStep(x, y);
      AndStep(ra, rb);
      Rejoin(And(qa, qb), p, And(ra / 2, rb / 2), if ra % 2 == 1 && rb % 2 == 1 then 1 else 0);
    }
  }

  lemma Halve(q: nat, p: nat, r: nat, x: nat)
    requires x == q * (2 * p) + r
    ensures x / 2 == q * p + r / 2 && x % 2 == r % 2
  {
    assert x == 2 * (q * p) + r;
  }

  lemma Rejoin(q: nat, p: nat, h: nat, b: nat)
    ensures 2 * (q * p + h) + b == q * (2 * p) + (2 * h + b)
  {
  }

  /** AND with k ones keeps the low k bits. */
  lemma {:induction false} AndOnes(k: nat, a: nat)
    requires a < Pow2(k)
    ensures And(a, Pow2(k) - 1) == a
  {
    if k > 0 {
      var p := Pow2(k - 1);
      AndOnes(k - 1, a / 2);
      AndCons(a / 2, a % 2, p - 1, 1);
    }
  }

  /** OR of numbers that share no bit is their sum. */
  lemma {:induction false} OrDisjoint(k: nat, a: nat, b: nat)
    requires a < Pow2(k)
    ensures Or(a, b * Pow2(k)) == a + b * Pow2(k)
  {
    OrDisjointAt(k, a, b, b * Pow2(k));
  }

  lemma {:induction false} OrDisjointAt(k: nat, a: nat, b: nat, y: nat)
    requires a < Pow2(k) && y == b * Pow2(k)
    ensures Or(a, y) == a + y
  {
    if k > 0 && a > 0 && y > 0 {
      Halve(b, Pow2(k - 1), 0, y);
      OrDisjointAt(k - 1, a / 2, b, y / 2);
    }
  }

  /** OR can be taken on the low k bits and on the rest separately. */
  lemma {:induction false} OrSplitAt(k: nat, qa: nat, ra: nat, qb: nat, rb: nat, x: nat, y: nat)
    requires ra < Pow2(k) && rb < Pow2(k)
    requires x == qa * Pow2(k) + ra && y == qb * Pow2(k) + rb
    ensures Or(x, y) == Or(qa, qb) * Pow2(k) + Or(ra, rb)
  {
    if k > 0 {
      var p := Pow2(k - 1);
      Halve(qa, p, ra, x);
      Halve(qb, p, rb, y);
      OrSplitAt(k - 1, qa, ra / 2, qb, rb / 2, x / 2, y / 2);
      Rejoin(Or(qa, qb), p, Or(ra / 2, rb / 2), if ra % 2 == 1 || rb % 2 == 1 then 1 else 0);
    }
  }

  /** A mask below 2^k sees only the low k bits. */
  lemma MaskLow(k: nat, q: nat, r: nat, m: nat)
    requires r < Pow2(k) && m < Pow2(k)
    ensures And(q * Pow2(k) + r, m) == And(r, m)
  {
    AndSplitAt(k, q, r, 0, m, q * Pow2(k) + r, m);
    AndNone(q);
  }

  lemma AndNone(a: nat)
    ensures And(a, 0) == 0
  {
  }

  // OR with a word shifted left by each amount the code uses.

  lemma {:induction false} OrShift6(a: nat, b: nat)
    requires a < 0x40
    ensures Or(a, b * 0x40) == a + b * 0x40
  {
    Pow2Values();
    OrDisjoint(6, a, b);
  }

  lemma {:induction false} OrShift8(a: nat, b: nat)
    requires a < 0x100
    ensures Or(a, b * 0x100) == a + b * 0x100
  {
    Pow2Values();
    OrDisjoint(8, a, b);
  }

  lemma {:induction false} OrShift12(a: nat, b: nat)
    requires a < 0x1000
    ensures Or(a, b * 0x1000) == a + b * 0x1000
  {
    Pow2Values();
    OrDisjoint(12, a, b);
  }

  lemma {:induction false} OrShift14(a: nat, b: nat)
    requires a < 0x4000
    ensures Or(a, b * 0x4000) == a + b * 0x4000
  {
    Pow2Values();
    OrDisjoint(14, a, b);
  }

  lemma {:induction false} OrShift16(a: nat, b: nat)
    requires a < 0x1_0000
    ensures Or(a, b * 0x1_0000) == a + b * 0x1_0000
  {
    Pow2Values();
    OrDisjoint(16, a, b);
  }

  lemma {:induction false} OrShift18(a: nat, b: nat)
    requires a < 0x4_0000
    ensures Or(a, b * 0x4_0000) == a + b * 0x4_0000
  {
    Pow2Values();
    OrDisjoint(18, a, b);
  }

  lemma {:induction false} OrShift20(a: nat, b: nat)
    requires a < 0x10_0000
    ensures Or(a, b * 0x10_0000) == a + b * 0x10_0000
  {
    Pow2Values();
    OrDisjoint(20, a, b);
  }

  lemma {:induction false} OrShift24(a: nat, b: nat)
    requires a < 0x100_0000
    ensures Or(a, b * 0x100_0000) == a + b * 0x100_0000
  {
    Pow2Values();
    OrDisjoint(24, a, b);
  }

  lemma {:induction false} OrShift26(a: nat, b: nat)
    requires a < 0x400_0000
    ensures Or(a, b * 0x400_0000) == a + b * 0x400_0000
  {
    Pow2Values();
    OrDisjoint(26, a, b);
  }

  // ----- Exclusive or -----

  function Xor(a: nat, b: nat): nat
    decreases a + b
  {
    if a == 0 then b
    else if b == 0 then a
    else 2 * Xor(a / 2, b / 2) + (if a % 2 != b % 2 then 1 else 0)
  }

  lemma {:induction false} XorBound(k: nat, a: nat, b: nat)
    requires a < Pow2(k) && b < Pow2(k)
    ensures Xor(a, b) < Pow2(k)
  {
    if a > 0 && b > 0 {
      XorBound(k - 1, a / 2, b / 2);
    }
  }

  lemma {:induction false} OrBound(k: nat, a: nat, b: nat)
    requires a < Pow2(k) && b < Pow2(k)
    ensures Or(a, b) < Pow2(k)
  {
    if a > 0 && b > 0 {
      OrBound(k - 1, a / 2, b / 2);
    }
  }

  lemma {:induction false} AndBound(a: nat, b: nat)
    ensures And(a, b) <= a && And(a, b) <= b
  {
    if a > 0 && b > 0 {
      AndBound(a / 2, b / 2);
    }
  }

  /** Exclusive or with the same number twice changes nothing. */
  lemma {:induction false} XorTwice(a: nat, k: nat)
    ensures Xor(Xor(a, k), k) == a
  {
    if a == 0 {
      XorSelf(k);
    } else if k > 0 {
      XorTwice(a / 2, k / 2);
      var x := Xor(a, k);
      assert x / 2 == Xor(a / 2, k / 2) && x % 2 == (if a % 2 != k % 2 then 1 else 0);
    }
  }

  lemma {:induction false} XorSelf(a: nat)
    ensures Xor(a, a) == 0
  {
    if a > 0 {
      XorSelf(a / 2);
    }
  }

  /** Exclusive or is zero only for equal numbers. */
  lemma {:induction false} XorZero(a: nat, b: nat)
    requires Xor(a, b) == 0
    ensures a == b
  {
    if a > 0 && b > 0 {
      XorZero(a / 2, b / 2);
    }
  }

  lemma {:induction false} OrZero(a: nat, b: nat)
    ensures Or(a, b) == 0 <==> a == 0 && b == 0
  {
    if a > 0 && b > 0 {
      OrZero(a / 2, b / 2);
    }
  }

  lemma {:induction false} OrCommutes(a: nat, b: nat)
    ensures Or(a, b) == Or(b, a)
    decreases a + b
  {
    if a > 0 && b > 0 {
      OrCommutes(a / 2, b / 2);
    }
  }

  function XorByte(a: byte, b: byte): byte
  {
    Pow2Values();
    XorBound(8, a, b);
    Xor(a, b)
  }

  function XorWord(a: word, b: word): word
  {
    Pow2Values();
    XorBound(32, a, b);
    Xor(a, b)
  }

  function AndWord(a: word, b: word): word
  {
    AndBound(a, b);
    And(a, b)
  }

  function OrWord(a: word, b: word): word
  {
    Pow2Values();
    OrBound(32, a, b);
    Or(a, b)
  }

  /** `~a` on 32 bits */
  function NotWord(a: word): word
  {
    0x1_0000_0000 - 1 - a
  }

  /** `a + b` on 32 bits */
  function AddWord(a: word, b: word): word
  {
    U32(a as nat + b as nat)
  }

  // ----- Rotation -----

  function Rotr1(x: word): word
  {
    x / 2 + (if x % 2 == 1 then 0x8000_0000 else 0)
  }

  function Rotl1(x: word): word
  {
    U32(2 * (x as nat)) + x / 0x8000_0000
  }

  /** A rotation by n places is n rotations by one. */
  function Rotr(x: word, n: nat): word
    decreases n, x
  {
    if n == 0 then x else Rotr1(Rotr(x, n - 1))
  }

  function Rotl(x: word, n: nat): word
    decreases n, x
  {
    if n == 0 then x else Rotl1(Rotl(x, n - 1))
  }

  /** x rotated by n: its high part moves down and its low n bits come in above it. */
  lemma {:induction false} RotrAt(x: word, n: nat) returns (q: nat, r: nat, p: nat, m: nat)
    requires n <= 32
    ensures p == Pow2(n) && m == Pow2(32 - n) && p * m == 0x1_0000_0000
    ensures r < p && x == q * p + r
    ensures Rotr(x, n) == q + r * m
  {
    if n == 0 {
      Pow2Values();
      q, r, p, m := x, 0, 1, 0x1_0000_0000;
    } else {
      var q0, r0, p0, m0 := RotrAt(x, n - 1);
      m := Pow2(32 - n);
      q, r, p := RotrMore(x, q0, r0, p0, m0, m, Rotr(x, n - 1));
    }
  }

  lemma RotrMore(x: word, q0: nat, r0: nat, p0: nat, m0: nat, m: nat, y: word) returns (q: nat, r: nat, p: nat)
    requires m0 == 2 * m && p0 * m0 == 0x1_0000_0000 && r0 < p0 && x == q0 * p0 + r0 && y == q0 + r0 * m0
    ensures p == 2 * p0 && p * m == 0x1_0000_0000 && r < p && x == q * p + r && Rotr1(y) == q + r * m
  {
    q, p := q0 / 2, 2 * p0;
    Double(p0, m);
    r := r0 + (q0 % 2) * p0;
    RotrStep(q, q0 % 2, q0, r0, p0, m, x, y);
  }

  lemma Double(p: nat, m: nat)
    ensures p * (2 * m) == (2 * p) * m == 2 * (p * m)
  {
  }

  lemma RotrStep(q: nat, b: nat, q0: nat, r: nat, p: nat, m: nat, x: nat, y: word)
    requires b < 2 && q0 == 2 * q + b && r < p && p * m == 0x8000_0000
    requires x == q0 * p + r && y == q0 + r * (2 * m)
    ensures r + b * p < 2 * p && x == q * (2 * p) + (r + b * p)
    ensures Rotr1(y) == q + (r + b * p) * m
  {
    Double(q, p);
    Double(r, m);
    Spread(2 * q, b, p);
    Spread(r, b * p, m);
    assert b * p == (if b == 0 then 0 else p);
    assert (b * p) * m == (if b == 0 then 0 else 0x8000_0000);
    assert y / 2 == q + r * m && y % 2 == b;
  }

  lemma Spread(a: nat, b: nat, p: nat)
    ensures (a + b) * p == a * p + b * p
  {
  }

  /** Rotating left by n undoes all but 32 - n of a full turn to the right. */
  lemma {:induction false} RotlIsRotr(x: word, n: nat)
    requires n <= 32
    ensures Rotl(x, n) == Rotr(x, 32 - n)
  {
    if n == 0 {
      WholeTurn(x, 32);
    } else {
      RotlIsRotr(x, n - 1);
      OneLess(x, 32 - n);
    }
  }

  lemma OneLess(x: word, k: nat)
    ensures Rotl1(Rotr(x, k + 1)) == Rotr(x, k)
  {
    LeftUndoesRight(Rotr(x, k));
  }

  lemma {:induction false} WholeTurn(x: word, n: nat)
    requires n == 32
    ensures Rotr(x, n) == x
  {
    var q, r, p, m := RotrAt(x, n);
    assert m == 1;
    FullTurn(x, q, r, p);
  }

  lemma FullTurn(x: word, q: nat, r: nat, p: nat)
    requires p == 0x1_0000_0000 && x == q * p + r
    ensures q == 0
  {
    assert x == q * 0x1_0000_0000 + r;
  }

  lemma LeftUndoesRight(z: word)
    ensures Rotl1(Rotr1(z)) == z
  {
  }

  /** `(x >> n) | (x << (32 - n))` */
  method Ror(x: word, n: nat) returns (w: word)
    requires 0 < n < 32
    ensures w == Rotr(x, n) && w == Rotl(x, 32 - n)
  {
    w := OrWord(Quotient(x, Pow2(n)), U32(x * Pow2(32 - n)));
    ghost var q, r, p, m := RotrAt(x, n);
    DivModUnique(x, p, q, r);
    Shifted(x, q, r, p, m);
    OrDisjoint(32 - n, q, r);
    RotlIsRotr(x, 32 - n);
  }

  lemma Shifted(x: word, q: nat, r: nat, p: nat, m: nat)
    requires p * m == 0x1_0000_0000 && r < p && x == q * p + r
    ensures q < m && U32(x * m) == r * m
  {
    Spread(q * p, r, m);
    assert (q * p) * m == q * (p * m) == q * 0x1_0000_0000;
    Spread(r + 1, p - r - 1, m);
    Spread(r, 1, m);
    WrapExact(x * m, q, r * m);
    if q >= m {
      Larger(m, q, p);
    }
  }

  lemma Larger(m: nat, q: nat, p: nat)
    requires m <= q
    ensures p * m <= q * p
  {
    Spread(m, q - m, p);
  }

  lemma WrapExact(y: nat, q: nat, r: nat)
    requires y == q * 0x1_0000_0000 + r && r < 0x1_0000_0000
    ensures U32(y) == r
  {
  }

  /** Shifting right by eight and then by k bytes is shifting by k + 1 bytes. */
  lemma {:induction false} DivideTwice(x: nat, k: nat)
    ensures (x / 256) / Pow2(8 * k) == x / Pow2(8 * (k + 1))
  {
    Pow2Values();
    Pow2Add(8, 8 * k);
    var p := Pow2(8 * k);
    assert 8 + 8 * k == 8 * (k + 1);
    DivideBy(x, x / 256, p);
  }

  lemma DivideBy(x: nat, y: nat, p: nat)
    requires y == x / 256 && p > 0
    ensures y / p == x / (256 * p)
  {
    var q, r := y / p, y % p;
    assert y == q * p + r;
    NestedQuotient(x, q, r, p);
    DivModUnique(x, 256 * p, q, 256 * r + x % 256);
  }

  lemma NestedQuotient(x: nat, q: nat, r: nat, p: nat)
    requires x / 256 == q * p + r && r < p
    ensures x == q * (256 * p) + (256 * r + x % 256) && 256 * r + x % 256 < 256 * p
  {
    assert q * (256 * p) == 256 * (q * p);
  }

  /** Quotient and remainder are determined by their defining equation. */
  lemma DivModUnique(a: nat, d: nat, q: nat, r: nat)
    requires r < d
    requires a == q * d + r
    ensures a / d == q
  {
    var q', r' := a / d, a % d;
    assert a == q' * d + r';
    if q < q' {
      Spread(q + 1, q' - q - 1, d);
      Spread(q, 1, d);
    } else if q' < q {
      Spread(q' + 1, q - q' - 1, d);
      Spread(q', 1, d);
    }
  }

  function Quotient(a: nat, p: nat): (q: nat)
    requires p > 0
    ensures q <= a
  {
    QuotientBound(a, p);
    a / p
  }

  lemma QuotientBound(a: nat, p: nat)
    requires p > 0
    ensures a / p <= a
  {
    var q := a / p;
    assert a == q * p + a % p;
    MulGrows(q, p);
  }

  lemma MulGrows(q: nat, p: nat)
    requires p > 0
    ensures q * p >= q
  {
    assert q * p == q * (p - 1) + q;
  }

  // ----- Words in bytes -----

  /** A word read from four bytes, least significant first. */
  function Load32(m: seq<byte>, i: nat): word
    requires i + 4 <= |m|
  {
    m[i] as nat + 0x100 * m[i + 1] as nat + 0x1_0000 * m[i + 2] as nat + 0x100_0000 * m[i + 3] as nat
  }

  /** The same, as the code does it: four bytes shifted and OR-ed together. */
  method LoadWord(m: seq<byte>, i: nat) returns (w: word)
    requires i + 4 <= |m|
    ensures w == Load32(m, i)
  {
    var b0: nat, b1: nat, b2: nat, b3: nat := m[i], m[i + 1], m[i + 2], m[i + 3];
    OrShift8(b0, b1);
    OrShift16(b0 + 0x100 * b1, b2);
    OrShift24(b0 + 0x100 * b1 + 0x1_0000 * b2, b3);
    w := Or(Or(Or(b0, U32(b1 * 0x100)), U32(b2 * 0x1_0000)), U32(b3 * 0x100_0000));
  }

  // ----- Bytes -----

  function Zeros(n: nat): (z: seq<byte>)
    ensures |z| == n && forall i :: 0 <= i < n ==> z[i] == 0
  {
    seq<byte>(n, i => 0)
  }
}
