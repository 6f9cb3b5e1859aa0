/** The one-time authenticator of RFC 8439 section 2.5, and the five-limb
    32-bit code that computes it. */
module Poly1305 {
  import opened Bits


  // ----- The definition of the standard -----

  const P: nat := 0x3_ffff_ffff_ffff_ffff_ffff_ffff_ffff_fffb  // 2^130 - 5
  const CLAMP: nat := 0x0fff_fffc_0fff_fffc_0fff_fffc_0fff_ffff

  /** A byte string read as a little-endian number. */
  function LE(b: seq<byte>): nat
  {
    if b == [] then 0 else b[0] + 256 * LE(b[1..])
  }

  /** The n low bytes of a number, least significant first. */
  function ToLE(n: nat, x: nat): (b: seq<byte>)
    ensures |b| == n
    decreases n, x
  {
    if n == 0 then [] else [x % 256] + ToLE(n - 1, x / 256)
  }

  /** Steps 2 to 8 of section 2.5.1: each block of at most sixteen bytes, with a
      one bit above it, is added to the accumulator, which is multiplied by r. */
  function PolyAcc(a: nat, r: nat, m: seq<byte>): nat
    decreases |m|
  {
    if m == [] then a
    else
      var n := if |m| < 16 then |m| else 16;
      PolyAcc(MulMod(a + (LE(m[..n]) + Pow2(8 * n)), r), r, m[n..])
  }

  /** The multiplier: the first half of the key, clamped. */
  function RValue(key: seq<byte>): nat
    requires |key| == 32
  {
    And(LE(key[..16]), CLAMP)
  }

  /** The tag of message m under the 32-byte one-time key. */
  function Tag(key: seq<byte>, m: seq<byte>): seq<byte>
    requires |key| == 32
  {
    ToLE(|key| - 16, (PolyAcc(0, RValue(key), m) + LE(key[16..])) % 0x1_0000_0000_0000_0000_0000_0000_0000_0000)
  }

  function MulMod(x: nat, r: nat): nat
  {
    (x * r) % P
  }

  // ----- Numbers in five limbs of 26 bits -----


  datatype Limbs = Limbs(a0: nat, a1: nat, a2: nat, a3: nat, a4: nat)

  function V(h: Limbs): nat
  {
    h.a0 + 0x400_0000 * h.a1 + 0x10_0000_0000_0000 * h.a2 + 0x4000_0000_0000_0000_0000 * h.a3
      + 0x1_0000_0000_0000_0000_0000_0000_00 * h.a4
  }

  /** The same value, one limb at a time. */
  function Radix(s: seq<nat>): nat
  {
    if s == [] then 0 else s[0] + 0x400_0000 * Radix(s[1..])
  }

  function Val(h: Limbs): nat
  {
    Radix([h.a0, h.a1, h.a2, h.a3, h.a4])
  }

  lemma ValIsV(h: Limbs)
    ensures Val(h) == V(h)
  {
    var s := [h.a0, h.a1, h.a2, h.a3, h.a4];
    assert s[1..] == [h.a1, h.a2, h.a3, h.a4] && s[1..][1..] == [h.a2, h.a3, h.a4];
    assert s[1..][1..][1..] == [h.a3, h.a4] && s[1..][1..][1..][1..] == [h.a4];
    assert Radix([h.a4]) == h.a4;
    assert Radix([h.a3, h.a4]) == h.a3 + 0x400_0000 * h.a4;
    assert Radix([h.a2, h.a3, h.a4]) == h.a2 + 0x400_0000 * Radix([h.a3, h.a4]);
    assert Radix([h.a1, h.a2, h.a3, h.a4]) == h.a1 + 0x400_0000 * Radix([h.a2, h.a3, h.a4]);
  }

  /** The state between blocks: every limb fits 26 bits except the second,
      which may exceed them by less than 64. */
  predicate Between(h: Limbs)
  {
    h.a0 <= 0x3ffffff && h.a1 < 0x3ffffff + 65 && h.a2 <= 0x3ffffff && h.a3 <= 0x3ffffff && h.a4 <= 0x3ffffff
  }

  /** What clamping leaves of each limb of r. */
  predicate Clamped(r: Limbs)
  {
    r.a0 <= 0x3ffffff && r.a1 <= 0x3ffff03 && r.a2 <= 0x3ffc0ff && r.a3 <= 0x3f03fff && r.a4 <= 0x00fffff
  }

  /** `(uint32_t)x & 0x3ffffff` */
  method Low26(x: nat) returns (r: nat)
    ensures r == x % 0x400_0000
  {
    r := And(U32(x), 0x3ffffff);
    LowBits(U32(x));
    WrapLow(x);
  }

  lemma {:induction false} LowBits(x: nat)
    ensures And(x, 0x3ffffff) == x % 0x400_0000
  {
    Pow2Values();
    var q, r := x / 0x400_0000, x % 0x400_0000;
    MaskLow(26, q, r, 0x3ffffff);
    AndOnes(26, r);
  }

  lemma WrapLow(x: nat)
    ensures U32(x) % 0x400_0000 == x % 0x400_0000
  {
    var q := x / 0x1_0000_0000;
    assert x == q * 0x1_0000_0000 + U32(x);
    assert x == (q * 64) * 0x400_0000 + U32(x);
  }

  // ----- One multiplication -----

  /** The five column sums of the limb product, with 2^130 folded back as 5. */
  function Products(h: Limbs, r: Limbs): Limbs
  {
    Limbs(
      h.a0 * r.a0 + h.a1 * (r.a4 * 5) + h.a2 * (r.a3 * 5) + h.a3 * (r.a2 * 5) + h.a4 * (r.a1 * 5),
      h.a0 * r.a1 + h.a1 * r.a0 + h.a2 * (r.a4 * 5) + h.a3 * (r.a3 * 5) + h.a4 * (r.a2 * 5),
      h.a0 * r.a2 + h.a1 * r.a1 + h.a2 * r.a0 + h.a3 * (r.a4 * 5) + h.a4 * (r.a3 * 5),
      h.a0 * r.a3 + h.a1 * r.a2 + h.a2 * r.a1 + h.a3 * r.a0 + h.a4 * (r.a4 * 5),
      h.a0 * r.a4 + h.a1 * r.a3 + h.a2 * r.a2 + h.a3 * r.a1 + h.a4 * r.a0)
  }

  /** What folding takes out of the full product, divided by P. */
  function Folded(h: Limbs, r: Limbs): nat
  {
    (h.a1 * r.a4 + h.a2 * r.a3 + h.a3 * r.a2 + h.a4 * r.a1)
    + 0x400_0000 * (h.a2 * r.a4 + h.a3 * r.a3 + h.a4 * r.a2)
    + 0x10_0000_0000_0000 * (h.a3 * r.a4 + h.a4 * r.a3)
    + 0x4000_0000_0000_0000_0000 * (h.a4 * r.a4)
  }

  lemma Distribute(x: nat, a: nat, b: nat, c: nat, d: nat, e: nat)
    ensures x * (a + b + c + d + e) == x * a + x * b + x * c + x * d + x * e
  {
  }

  lemma Commute(x: nat, k: nat, y: nat)
    ensures x * (k * y) == k * (x * y)
  {
  }

  /** One row of the product: a limb times all of r. */
  lemma TimesValue(x: nat, r: Limbs)
    ensures x * V(r) == x * r.a0 + 0x400_0000 * (x * r.a1) + 0x10_0000_0000_0000 * (x * r.a2) + 0x4000_0000_0000_0000_0000 * (x * r.a3) + 0x1_0000_0000_0000_0000_0000_0000_00 * (x * r.a4)
  {
    Distribute(x, r.a0, 0x400_0000 * r.a1, 0x10_0000_0000_0000 * r.a2, 0x4000_0000_0000_0000_0000 * r.a3, 0x1_0000_0000_0000_0000_0000_0000_00 * r.a4);
    Commute(x, 0x400_0000, r.a1);
    Commute(x, 0x10_0000_0000_0000, r.a2);
    Commute(x, 0x4000_0000_0000_0000_0000, r.a3);
    Commute(x, 0x1_0000_0000_0000_0000_0000_0000_00, r.a4);
  }

  lemma Rows(h: Limbs, R: nat)
    ensures V(h) * R == h.a0 * R + 0x400_0000 * (h.a1 * R) + 0x10_0000_0000_0000 * (h.a2 * R) + 0x4000_0000_0000_0000_0000 * (h.a3 * R) + 0x1_0000_0000_0000_0000_0000_0000_00 * (h.a4 * R)
  {
    TimesValue(R, h);
  }

  /** Sorting the 25 products by column, with the columns past 2^130 folded. */
  lemma Columns(p00: int, p01: int, p02: int, p03: int, p04: int,
               p10: int, p11: int, p12: int, p13: int, p14: int,
               p20: int, p21: int, p22: int, p23: int, p24: int,
               p30: int, p31: int, p32: int, p33: int, p34: int,
               p40: int, p41: int, p42: int, p43: int, p44: int)
    ensures p00 + 5 * p14 + 5 * p23 + 5 * p32 + 5 * p41
      + 0x400_0000 * (p01 + p10 + 5 * p24 + 5 * p33 + 5 * p42)
      + 0x10_0000_0000_0000 * (p02 + p11 + p20 + 5 * p34 + 5 * p43)
      + 0x4000_0000_0000_0000_0000 * (p03 + p12 + p21 + p30 + 5 * p44)
      + 0x1_0000_0000_0000_0000_0000_0000_00 * (p04 + p13 + p22 + p31 + p40)
      + P * ((p14 + p23 + p32 + p41) + 0x400_0000 * (p24 + p33 + p42) + 0x10_0000_0000_0000 * (p34 + p43) + 0x4000_0000_0000_0000_0000 * (p44))
      == p00 + 0x400_0000 * (p01) + 0x10_0000_0000_0000 * (p02) + 0x4000_0000_0000_0000_0000 * (p03) + 0x1_0000_0000_0000_0000_0000_0000_00 * (p04)
      + 0x400_0000 * (p10 + 0x400_0000 * (p11) + 0x10_0000_0000_0000 * (p12) + 0x4000_0000_0000_0000_0000 * (p13) + 0x1_0000_0000_0000_0000_0000_0000_00 * (p14))
      + 0x10_0000_0000_0000 * (p20 + 0x400_0000 * (p21) + 0x10_0000_0000_0000 * (p22) + 0x4000_0000_0000_0000_0000 * (p23) + 0x1_0000_0000_0000_0000_0000_0000_00 * (p24))
      + 0x4000_0000_0000_0000_0000 * (p30 + 0x400_0000 * (p31) + 0x10_0000_0000_0000 * (p32) + 0x4000_0000_0000_0000_0000 * (p33) + 0x1_0000_0000_0000_0000_0000_0000_00 * (p34))
      + 0x1_0000_0000_0000_0000_0000_0000_00 * (p40 + 0x400_0000 * (p41) + 0x10_0000_0000_0000 * (p42) + 0x4000_0000_0000_0000_0000 * (p43) + 0x1_0000_0000_0000_0000_0000_0000_00 * (p44))
  {
  }

  lemma TimesFive(x: nat, y: nat)
    ensures x * (y * 5) == 5 * (x * y)
  {
  }

  lemma FoldColumns(h: Limbs, r: Limbs)
    ensures V(Products(h, r)) + P * Folded(h, r) == h.a0 * r.a0 + 0x400_0000 * (h.a0 * r.a1) + 0x10_0000_0000_0000 * (h.a0 * r.a2) + 0x4000_0000_0000_0000_0000 * (h.a0 * r.a3) + 0x1_0000_0000_0000_0000_0000_0000_00 * (h.a0 * r.a4)
      + 0x400_0000 * (h.a1 * r.a0 + 0x400_0000 * (h.a1 * r.a1) + 0x10_0000_0000_0000 * (h.a1 * r.a2) + 0x4000_0000_0000_0000_0000 * (h.a1 * r.a3) + 0x1_0000_0000_0000_0000_0000_0000_00 * (h.a1 * r.a4))
      + 0x10_0000_0000_0000 * (h.a2 * r.a0 + 0x400_0000 * (h.a2 * r.a1) + 0x10_0000_0000_0000 * (h.a2 * r.a2) + 0x4000_0000_0000_0000_0000 * (h.a2 * r.a3) + 0x1_0000_0000_0000_0000_0000_0000_00 * (h.a2 * r.a4))
      + 0x4000_0000_0000_0000_0000 * (h.a3 * r.a0 + 0x400_0000 * (h.a3 * r.a1) + 0x10_0000_0000_0000 * (h.a3 * r.a2) + 0x4000_0000_0000_0000_0000 * (h.a3 * r.a3) + 0x1_0000_0000_0000_0000_0000_0000_00 * (h.a3 * r.a4))
      + 0x1_0000_0000_0000_0000_0000_0000_00 * (h.a4 * r.a0 + 0x400_0000 * (h.a4 * r.a1) + 0x10_0000_0000_0000 * (h.a4 * r.a2) + 0x4000_0000_0000_0000_0000 * (h.a4 * r.a3) + 0x1_0000_0000_0000_0000_0000_0000_00 * (h.a4 * r.a4))
  {
    TimesFive(h.a1, r.a4); TimesFive(h.a2, r.a3); TimesFive(h.a3, r.a2); TimesFive(h.a4, r.a1);
    TimesFive(h.a2, r.a4); TimesFive(h.a3, r.a3); TimesFive(h.a4, r.a2);
    TimesFive(h.a3, r.a4); TimesFive(h.a4, r.a3);
    TimesFive(h.a4, r.a4);
    Columns(h.a0 * r.a0, h.a0 * r.a1, h.a0 * r.a2, h.a0 * r.a3, h.a0 * r.a4, h.a1 * r.a0, h.a1 * r.a1, h.a1 * r.a2, h.a1 * r.a3, h.a1 * r.a4, h.a2 * r.a0, h.a2 * r.a1, h.a2 * r.a2, h.a2 * r.a3, h.a2 * r.a4, h.a3 * r.a0, h.a3 * r.a1, h.a3 * r.a2, h.a3 * r.a3, h.a3 * r.a4, h.a4 * r.a0, h.a4 * r.a1, h.a4 * r.a2, h.a4 * r.a3, h.a4 * r.a4);
  }

  /** The columns are the product of the two numbers, modulo P. */
  lemma ProductsValue(h: Limbs, r: Limbs)
    ensures V(Products(h, r)) + P * Folded(h, r) == V(h) * V(r)
  {
    Rows(h, V(r));
    FoldColumns(h, r);
    TimesValue(h.a0, r);
    TimesValue(h.a1, r);
    TimesValue(h.a2, r);
    TimesValue(h.a3, r);
    TimesValue(h.a4, r);
  }

  lemma MulBound(x: nat, y: nat, a: nat, b: nat)
    requires x <= a && y <= b
    ensures x * y <= a * b
  {
    assert x * y <= x * b;
    assert x * b <= a * b;
  }

  /** The limbs once a block has been added to them. */
  predicate Loaded(h: Limbs)
  {
    h.a0 <= 0x800_0040 && h.a1 <= 0x800_0040 && h.a2 <= 0x800_0040 && h.a3 <= 0x800_0040 && h.a4 <= 0x800_0040
  }

  lemma ColumnBound(x0: nat, y0: nat, x1: nat, y1: nat, x2: nat, y2: nat, x3: nat, y3: nat, x4: nat, y4: nat, k: nat)
    requires x0 <= 0x800_0040 && x1 <= 0x800_0040 && x2 <= 0x800_0040 && x3 <= 0x800_0040 && x4 <= 0x800_0040
    requires y0 + y1 + y2 + y3 + y4 <= k
    ensures x0 * y0 + x1 * y1 + x2 * y2 + x3 * y3 + x4 * y4 <= 0x800_0040 * k
  {
    MulBound(x0, y0, 0x800_0040, y0);
    MulBound(x1, y1, 0x800_0040, y1);
    MulBound(x2, y2, 0x800_0040, y2);
    MulBound(x3, y3, 0x800_0040, y3);
    MulBound(x4, y4, 0x800_0040, y4);
  }

  /** No column sum comes near 2^64, and each one's carry fits 32 bits. */
  lemma ColumnBounds(h: Limbs, r: Limbs)
    requires Loaded(h) && Clamped(r)
    ensures var d := Products(h, r);
      d.a0 < 0x300_0000_0000_0000 && d.a1 < 0x300_0000_0000_0000 && d.a2 < 0x300_0000_0000_0000
      && d.a3 < 0x300_0000_0000_0000 && d.a4 < 0x90_0000_0000_0000
  {
    ColumnBound(h.a0, r.a0, h.a1, r.a4 * 5, h.a2, r.a3 * 5, h.a3, r.a2 * 5, h.a4, r.a1 * 5, 0x4410_0000);
    ColumnBound(h.a0, r.a1, h.a1, r.a0, h.a2, r.a4 * 5, h.a3, r.a3 * 5, h.a4, r.a2 * 5, 0x4410_0000);
    ColumnBound(h.a0, r.a2, h.a1, r.a1, h.a2, r.a0, h.a3, r.a4 * 5, h.a4, r.a3 * 5, 0x4410_0000);
    ColumnBound(h.a0, r.a3, h.a1, r.a2, h.a2, r.a1, h.a3, r.a0, h.a4, r.a4 * 5, 0x4410_0000);
    ColumnBound(h.a0, r.a4, h.a1, r.a3, h.a2, r.a2, h.a3, r.a1, h.a4, r.a0, 0x1010_0000);
  }

  // ----- Congruence modulo P -----

  lemma ModShift(x: int, k: int, p: nat)
    requires p > 0
    ensures (x + k * p) % p == x % p
  {
    var q, r := x / p, x % p;
    assert x == q * p + r;
    assert x + k * p == (q + k) * p + r by { assert (q + k) * p == q * p + k * p; }
    IntModUnique(x + k * p, p, q + k, r);
  }

  lemma IntModUnique(a: int, d: nat, q: int, r: nat)
    requires r < d
    requires a == q * d + r
    ensures a % d == r
  {
    var q', r' := a / d, a % d;
    assert a == q' * d + r';
    if q < q' {
      IntStep(q, q', d);
    } else if q' < q {
      IntStep(q', q, d);
    }
  }

  lemma IntStep(a: int, b: int, d: nat)
    requires a < b
    ensures a * d + d <= b * d
  {
    assert (b - a - 1) * d >= 0 by { MulBound(0, 0, b - a - 1, d); }
    assert b * d == a * d + (b - a - 1) * d + d;
  }

  /** Reducing the accumulator before or after a step makes no difference. */
  lemma StepCongruence(x: nat, n: nat, r: nat, p: nat)
    requires p > 0
    ensures ((x % p + n) * r) % p == ((x + n) * r) % p
  {
    var q, y := x / p, x % p;
    assert x == q * p + y;
    assert (x + n) * r == (y + n) * r + (q * r) * p by {
      assert (q * p + (y + n)) * r == (q * p) * r + (y + n) * r;
      assert (q * p) * r == (q * r) * p;
    }
    ModShift((y + n) * r, q * r, p);
  }

  // ----- Words and bytes -----

  lemma LELoad(m: seq<byte>, i: nat)
    requires i + 4 <= |m|
    ensures LE(m[i..]) == Load32(m, i) + 0x1_0000_0000 * LE(m[i + 4..])
  {
    var n := m[i..];
    assert n[1..] == m[i + 1..] && m[i + 1..][1..] == m[i + 2..];
    assert m[i + 2..][1..] == m[i + 3..] && m[i + 3..][1..] == m[i + 4..];
    assert LE(m[i..]) == m[i] + 256 * LE(m[i + 1..]);
    assert LE(m[i + 1..]) == m[i + 1] + 256 * LE(m[i + 2..]);
    assert LE(m[i + 2..]) == m[i + 2] + 256 * LE(m[i + 3..]);
    assert LE(m[i + 3..]) == m[i + 3] + 256 * LE(m[i + 4..]);
  }

  function FourWords(w0: nat, w1: nat, w2: nat, w3: nat): nat
  {
    w0 + 0x1_0000_0000 * w1 + 0x1_0000_0000_0000_0000 * w2 + 0x1_0000_0000_0000_0000_0000_0000 * w3
  }

  lemma LEWordsAt(m: seq<byte>, i: nat)
    requires i + 16 <= |m|
    ensures LE(m[i..i + 16]) == FourWords(Load32(m, i), Load32(m, i + 4), Load32(m, i + 8), Load32(m, i + 12))
  {
    var n := m[i..i + 16];
    LEWords(n);
    assert Load32(n, 0) == Load32(m, i) && Load32(n, 4) == Load32(m, i + 4);
    assert Load32(n, 8) == Load32(m, i + 8) && Load32(n, 12) == Load32(m, i + 12);
  }

  lemma {:induction false} LEWords(m: seq<byte>)
    requires |m| == 16
    ensures LE(m) == FourWords(Load32(m, 0), Load32(m, 4), Load32(m, 8), Load32(m, 12))
  {
    LELoad(m, 0);
    LELoad(m, 4);
    LELoad(m, 8);
    LELoad(m, 12);
    assert m[0..] == m && m[16..] == [];
  }

  /** `((lo >> 26) | (hi << 6)) & mask`: 26 bits of hi:lo from bit 26 on, masked. */
  method Funnel26(lo: nat, hi: nat, mask: nat) returns (w: nat)
    requires lo < 0x1_0000_0000 && mask <= 0x3ffffff
    ensures w == And(lo / 0x400_0000 + 0x40 * (hi % 0x10_0000), mask)
  {
    w := And(Or(lo / 0x400_0000, U32(hi * 0x40)), mask);
    OrShift6(lo / 0x400_0000, hi % 0x400_0000);
    Shl6(hi);
    CutLimb(lo / 0x400_0000, hi % 0x400_0000, hi, 0x40, 0x10_0000, mask);
  }

  /** `((lo >> 20) | (hi << 12)) & mask` */
  method Funnel20(lo: nat, hi: nat, mask: nat) returns (w: nat)
    requires lo < 0x1_0000_0000 && mask <= 0x3ffffff
    ensures w == And(lo / 0x10_0000 + 0x1000 * (hi % 0x4000), mask)
  {
    w := And(Or(lo / 0x10_0000, U32(hi * 0x1000)), mask);
    OrShift12(lo / 0x10_0000, hi % 0x10_0000);
    Shl12(hi);
    CutLimb(lo / 0x10_0000, hi % 0x10_0000, hi, 0x1000, 0x4000, mask);
  }

  /** `((lo >> 14) | (hi << 18)) & mask` */
  method Funnel14(lo: nat, hi: nat, mask: nat) returns (w: nat)
    requires lo < 0x1_0000_0000 && mask <= 0x3ffffff
    ensures w == And(lo / 0x4000 + 0x4_0000 * (hi % 0x100), mask)
  {
    w := And(Or(lo / 0x4000, U32(hi * 0x4_0000)), mask);
    OrShift18(lo / 0x4000, hi % 0x4000);
    Shl18(hi);
    CutLimb(lo / 0x4000, hi % 0x4000, hi, 0x4_0000, 0x100, mask);
  }

  lemma Shl6(x: nat)
    ensures U32(x * 0x40) == (x % 0x400_0000) * 0x40
  {
  }

  lemma Shl12(x: nat)
    ensures U32(x * 0x1000) == (x % 0x10_0000) * 0x1000
  {
  }

  lemma Shl18(x: nat)
    ensures U32(x * 0x4_0000) == (x % 0x4000) * 0x4_0000
  {
  }

  lemma CutLimb(a: nat, b: nat, hi: nat, s: nat, p: nat, mask: nat)
    requires (s == 0x40 && p == 0x10_0000) || (s == 0x1000 && p == 0x4000) || (s == 0x4_0000 && p == 0x100)
    requires a < s && mask <= 0x3ffffff && b == hi % (p * 64)
    ensures And(a + b * s, mask) == And(a + s * (hi % p), mask)
  {
    NestedMod(hi, b, p);
    var q, r := b / p, b % p;
    assert a + b * s == q * 0x400_0000 + (a + s * r);
    Pow2Values();
    MaskLow(26, q, a + s * r, mask);
  }

  lemma NestedMod(x: nat, b: nat, p: nat)
    requires p == 0x10_0000 || p == 0x4000 || p == 0x100
    requires b == x % (p * 64)
    ensures b % p == x % p
  {
    if p == 0x10_0000 {
      assert b == x % 0x400_0000;
      Nested20(x / 0x400_0000, b);
    } else if p == 0x4000 {
      assert b == x % 0x10_0000;
      Nested14(x / 0x10_0000, b);
    } else {
      assert b == x % 0x4000;
      Nested8(x / 0x4000, b);
    }
  }

  lemma Nested20(q: nat, b: nat)
    ensures (q * 0x400_0000 + b) % 0x10_0000 == b % 0x10_0000
  {
  }

  lemma Nested14(q: nat, b: nat)
    ensures (q * 0x10_0000 + b) % 0x4000 == b % 0x4000
  {
  }

  lemma Nested8(q: nat, b: nat)
    ensures (q * 0x4000 + b) % 0x100 == b % 0x100
  {
  }

  /** The five limbs of a block, given as four words. */
  function BlockLimbs(t0: nat, t1: nat, t2: nat, t3: nat, hibit: nat): Limbs
  {
    Limbs(t0 % 0x400_0000, t0 / 0x400_0000 + 0x40 * (t1 % 0x10_0000), t1 / 0x10_0000 + 0x1000 * (t2 % 0x4000),
          t2 / 0x4000 + 0x4_0000 * (t3 % 0x100), t3 / 0x100 + hibit)
  }

  lemma BlockLimbsValue(t0: nat, t1: nat, t2: nat, t3: nat, hibit: nat)
    requires t0 < 0x1_0000_0000 && t1 < 0x1_0000_0000 && t2 < 0x1_0000_0000 && t3 < 0x1_0000_0000
    requires hibit == 0 || hibit == 0x100_0000
    ensures var x := BlockLimbs(t0, t1, t2, t3, hibit);
      && V(x) == FourWords(t0, t1, t2, t3) + hibit * 0x1_0000_0000_0000_0000_0000_0000_00
      && x.a0 <= 0x3ffffff && x.a1 <= 0x3ffffff && x.a2 <= 0x3ffffff && x.a3 <= 0x3ffffff && x.a4 < 0x200_0000
  {
  }

  // ----- Carrying -----

  /** The carries after a multiplication: each column keeps 26 bits and passes the
      rest up; what leaves the top comes back multiplied by five. */
  lemma CarryValue(d: Limbs, c0: nat, c1: nat, c2: nat, c3: nat, c4: nat, c5: nat, h: Limbs)
    requires h.a1 >= c5
    requires d.a0 - c0 * 0x400_0000 + 5 * c4 == c5 * 0x400_0000 + h.a0
    requires d.a1 + c0 == c1 * 0x400_0000 + (h.a1 - c5)
    requires d.a2 + c1 == c2 * 0x400_0000 + h.a2
    requires d.a3 + c2 == c3 * 0x400_0000 + h.a3
    requires d.a4 + c3 == c4 * 0x400_0000 + h.a4
    ensures V(h) + c4 * P == V(d)
  {
  }

  /** The limbs of r: those of the key's first half, each under its own mask. */
  function KeyLimbs(t0: nat, t1: nat, t2: nat, t3: nat): Limbs
  {
    var x := BlockLimbs(t0, t1, t2, t3, 0);
    Limbs(x.a0, And(x.a1, 0x3ffff03), And(x.a2, 0x3ffc0ff), And(x.a3, 0x3f03fff), And(x.a4, 0x00fffff))
  }

  /** Masking limb by limb is the clamping of section 2.5. */
  lemma ClampLimbs(t0: nat, t1: nat, t2: nat, t3: nat)
    requires t0 < 0x1_0000_0000 && t1 < 0x1_0000_0000 && t2 < 0x1_0000_0000 && t3 < 0x1_0000_0000
    ensures V(KeyLimbs(t0, t1, t2, t3)) == And(FourWords(t0, t1, t2, t3), CLAMP)
    ensures Clamped(KeyLimbs(t0, t1, t2, t3))
  {
    var x := BlockLimbs(t0, t1, t2, t3, 0);
    BlockLimbsValue(t0, t1, t2, t3, 0);
    assert Clamped(KeyLimbs(t0, t1, t2, t3)) by {
      MaskBelow(x.a1, 0x3ffff03);
      MaskBelow(x.a2, 0x3ffc0ff);
      MaskBelow(x.a3, 0x3f03fff);
      MaskBelow(x.a4, 0x00fffff);
    }
    var c := Limbs(0x3ffffff, 0x3ffff03, 0x3ffc0ff, 0x3f03fff, 0x00fffff);
    assert V(c) == CLAMP;
    OnesLimb(x.a0);
    MaskedLimbs(x, c);
  }

  lemma {:induction false} MaskBelow(x: nat, m: nat)
    ensures And(x, m) <= m
  {
    if x > 0 && m > 0 {
      MaskBelow(x / 2, m / 2);
    }
  }

  /** AND of two numbers in limbs is taken limb by limb. */
  lemma MaskedLimbs(x: Limbs, c: Limbs)
    requires x.a0 <= 0x3ffffff && x.a1 <= 0x3ffffff && x.a2 <= 0x3ffffff && x.a3 <= 0x3ffffff
    requires c.a0 <= 0x3ffffff && c.a1 <= 0x3ffffff && c.a2 <= 0x3ffffff && c.a3 <= 0x3ffffff
    ensures And(V(x), V(c)) == V(Limbs(And(x.a0, c.a0), And(x.a1, c.a1), And(x.a2, c.a2), And(x.a3, c.a3), And(x.a4, c.a4)))
  {
    var x3, x2, x1, x0 := Nested(x);
    var c3, c2, c1, c0 := Nested(c);
    AndAt(x3, x.a4, x.a3, c3, c.a4, c.a3);
    AndAt(x2, x3, x.a2, c2, c3, c.a2);
    AndAt(x1, x2, x.a1, c1, c2, c.a1);
    AndAt(x0, x1, x.a0, c0, c1, c.a0);
    Horner(And(x.a4, c.a4), And(x.a3, c.a3), And(x.a2, c.a2), And(x.a1, c.a1), And(x.a0, c.a0),
           And(x3, c3), And(x2, c2), And(x1, c1), And(x0, c0));
  }

  lemma {:induction false} AndAt(x: nat, qx: nat, rx: nat, c: nat, qc: nat, rc: nat)
    requires x == qx * 0x400_0000 + rx && c == qc * 0x400_0000 + rc && rx <= 0x3ffffff && rc <= 0x3ffffff
    ensures And(x, c) == And(qx, qc) * 0x400_0000 + And(rx, rc)
  {
    Pow2Values();
    AndSplitBy(26, 0x400_0000, qx, rx, qc, rc, x, c);
  }

  /** The value of limbs, taken from the highest on. */
  lemma Nested(x: Limbs) returns (x3: nat, x2: nat, x1: nat, x0: nat)
    ensures x3 == x.a4 * 0x400_0000 + x.a3 && x2 == x3 * 0x400_0000 + x.a2
    ensures x1 == x2 * 0x400_0000 + x.a1 && x0 == x1 * 0x400_0000 + x.a0 && V(x) == x0
  {
    x3 := x.a4 * 0x400_0000 + x.a3;
    x2 := x3 * 0x400_0000 + x.a2;
    x1 := x2 * 0x400_0000 + x.a1;
    x0 := x1 * 0x400_0000 + x.a0;
    Horner(x.a4, x.a3, x.a2, x.a1, x.a0, x3, x2, x1, x0);
  }

  lemma Horner(a4: nat, a3: nat, a2: nat, a1: nat, a0: nat, x3: nat, x2: nat, x1: nat, x0: nat)
    requires x3 == a4 * 0x400_0000 + a3
    requires x2 == x3 * 0x400_0000 + a2
    requires x1 == x2 * 0x400_0000 + a1
    requires x0 == x1 * 0x400_0000 + a0
    ensures V(Limbs(a0, a1, a2, a3, a4)) == x0
  {
  }

  // ----- The code -----

  function U64(x: nat): (r: nat)
    ensures x < 0x1_0000_0000_0000_0000 ==> r == x
  {
    x % 0x1_0000_0000_0000_0000
  }

  /** The accumulator after the whole blocks of m, each with `hi` added above it. */
  function BlocksAcc(a: nat, r: nat, m: seq<byte>, hi: nat): nat
    decreases |m|
  {
    if |m| < 16 then a
    else BlocksAcc(MulMod(a + (LE(m[..16]) + hi), r), r, m[16..], hi)
  }

  /** One turn of the loop in poly_blocks, on the accumulator's limbs. */
  method AddAndMultiply(h: Limbs, r: Limbs, m: seq<byte>, hibit: nat) returns (h': Limbs)
    requires |m| == 16 && Between(h) && Clamped(r)
    requires hibit == 0 || hibit == 0x100_0000
    ensures Between(h')
    ensures Val(h') % P == MulMod(Val(h) % P + (LE(m) + TopBit(hibit)), Val(r))
  {
    var l := AddBlock(h, m, hibit);
    h' := MultiplyLimbs(l, r);
    AccStep(Val(h'), Val(l), Val(h), LE(m) + TopBit(hibit), Val(r));
  }

  lemma AccStep(out: nat, l: nat, h: nat, n: nat, r: nat)
    requires l == h + n
    requires out % P == MulMod(l, r)
    ensures out % P == MulMod(h % P + n, r)
  {
    StepCongruence(h, n, r, P);
  }

  function TopBit(hibit: nat): nat
  {
    hibit * 0x1_0000_0000_0000_0000_0000_0000_00
  }

  method AddBlock(h: Limbs, m: seq<byte>, hibit: nat) returns (l: Limbs)
    requires |m| == 16 && Between(h)
    requires hibit == 0 || hibit == 0x100_0000
    ensures Loaded(l) && Val(l) == Val(h) + (LE(m) + TopBit(hibit))
  {
    var x := CutBlock(m, hibit);
    l := Limbs(U32(h.a0 + x.a0), U32(h.a1 + x.a1), U32(h.a2 + x.a2), U32(h.a3 + x.a3), U32(h.a4 + x.a4));
    BlockAdded(h, l, m, hibit);
  }

  method CutWords(t0: word, t1: word, t2: word, t3: word, hibit: nat) returns (x: Limbs)
    requires hibit == 0 || hibit == 0x100_0000
    ensures x == BlockLimbs(t0, t1, t2, t3, hibit)
    ensures x.a0 <= 0x3ffffff && x.a1 <= 0x3ffffff && x.a2 <= 0x3ffffff && x.a3 <= 0x3ffffff && x.a4 <= 0x3ffffff
  {
    LimbsUnmasked(t0, t1, t2, t3);
    var x0 := Low26(t0);
    var x1 := Funnel26(t0, t1, 0x3ffffff);
    var x2 := Funnel20(t1, t2, 0x3ffffff);
    var x3 := Funnel14(t2, t3, 0x3ffffff);
    var x4 := OrTop(t3 / 0x100, hibit);
    x := Limbs(x0, x1, x2, x3, x4);
  }

  method CutBlock(m: seq<byte>, hibit: nat) returns (x: Limbs)
    requires |m| == 16 && (hibit == 0 || hibit == 0x100_0000)
    ensures x == BlockLimbs(Load32(m, 0), Load32(m, 4), Load32(m, 8), Load32(m, 12), hibit)
    ensures x.a0 <= 0x3ffffff && x.a1 <= 0x3ffffff && x.a2 <= 0x3ffffff && x.a3 <= 0x3ffffff && x.a4 <= 0x3ffffff
  {
    var t0 := LoadWord(m, 0);
    var t1 := LoadWord(m, 4);
    var t2 := LoadWord(m, 8);
    var t3 := LoadWord(m, 12);
    x := CutWords(t0, t1, t2, t3, hibit);
  }

  lemma {:induction false} BlockAdded(h: Limbs, l: Limbs, m: seq<byte>, hibit: nat)
    requires |m| == 16 && Between(h) && (hibit == 0 || hibit == 0x100_0000)
    requires var x := BlockLimbs(Load32(m, 0), Load32(m, 4), Load32(m, 8), Load32(m, 12), hibit);
      l == Limbs(h.a0 + x.a0, h.a1 + x.a1, h.a2 + x.a2, h.a3 + x.a3, h.a4 + x.a4)
    ensures Loaded(l) && Val(l) == Val(h) + (LE(m) + TopBit(hibit))
  {
    var x := BlockLimbs(Load32(m, 0), Load32(m, 4), Load32(m, 8), Load32(m, 12), hibit);
    BlockLimbsValue(Load32(m, 0), Load32(m, 4), Load32(m, 8), Load32(m, 12), hibit);
    AddLimbs(l, h, x);
    LEWords(m);
    ValIsV(l);
    ValIsV(h);
  }

  method OrTop(t: nat, hibit: nat) returns (w: nat)
    requires t < 0x100_0000 && (hibit == 0 || hibit == 0x100_0000)
    ensures w == t + hibit
  {
    w := Or(t, hibit);
    OrShift24(t, hibit / 0x100_0000);
  }

  lemma LimbsUnmasked(t0: nat, t1: nat, t2: nat, t3: nat)
    requires t0 < 0x1_0000_0000 && t1 < 0x1_0000_0000 && t2 < 0x1_0000_0000 && t3 < 0x1_0000_0000
    ensures var x := BlockLimbs(t0, t1, t2, t3, 0);
      && x.a1 <= 0x3ffffff && x.a2 <= 0x3ffffff && x.a3 <= 0x3ffffff
      && And(x.a1, 0x3ffffff) == x.a1 && And(x.a2, 0x3ffffff) == x.a2 && And(x.a3, 0x3ffffff) == x.a3
  {
    OnesLimb(t0 / 0x400_0000 + 0x40 * (t1 % 0x10_0000));
    OnesLimb(t1 / 0x10_0000 + 0x1000 * (t2 % 0x4000));
    OnesLimb(t2 / 0x4000 + 0x4_0000 * (t3 % 0x100));
  }

  lemma {:induction false} OnesLimb(x: nat)
    requires x <= 0x3ffffff
    ensures And(x, 0x3ffffff) == x
  {
    Pow2Values();
    AndOnes(26, x);
  }

  lemma AddLimbs(l: Limbs, h: Limbs, x: Limbs)
    requires l == Limbs(h.a0 + x.a0, h.a1 + x.a1, h.a2 + x.a2, h.a3 + x.a3, h.a4 + x.a4)
    ensures V(l) == V(h) + V(x)
  {
  }

  method MultiplyLimbs(l: Limbs, r: Limbs) returns (h: Limbs)
    requires Loaded(l) && Clamped(r)
    ensures Between(h)
    ensures Val(h) % P == MulMod(Val(l), Val(r))
  {
    var s1, s2, s3, s4 := U32(r.a1 * 5), U32(r.a2 * 5), U32(r.a3 * 5), U32(r.a4 * 5);
    ghost var p := Products(l, r);
    ColumnBounds(l, r);
    var d0 := U64(l.a0 * r.a0 + l.a1 * s4 + l.a2 * s3 + l.a3 * s2 + l.a4 * s1);
    var d1 := U64(l.a0 * r.a1 + l.a1 * r.a0 + l.a2 * s4 + l.a3 * s3 + l.a4 * s2);
    var d2 := U64(l.a0 * r.a2 + l.a1 * r.a1 + l.a2 * r.a0 + l.a3 * s4 + l.a4 * s3);
    var d3 := U64(l.a0 * r.a3 + l.a1 * r.a2 + l.a2 * r.a1 + l.a3 * r.a0 + l.a4 * s4);
    var d4 := U64(l.a0 * r.a4 + l.a1 * r.a3 + l.a2 * r.a2 + l.a3 * r.a1 + l.a4 * r.a0);
    assert Limbs(d0, d1, d2, d3, d4) == p;
    h := CarryColumns(p, d0, d1, d2, d3, d4);
    ghost var k :| V(h) + k * P == V(p);
    ReducedProduct(l, r, h, k);
  }

  lemma ReducedProduct(l: Limbs, r: Limbs, h: Limbs, k: nat)
    requires V(h) + k * P == V(Products(l, r))
    ensures Val(h) % P == MulMod(Val(l), Val(r))
  {
    ProductsValue(l, r);
    ValIsV(l);
    ValIsV(r);
    ValIsV(h);
    ShiftedBack(V(l) * V(r), V(h), k + Folded(l, r));
  }

  lemma ShiftedBack(product: nat, v: nat, k: nat)
    requires product == v + k * P
    ensures v % P == product % P
  {
    ModShift(v, k, P);
  }

  method CarryColumns(ghost d: Limbs, e0: nat, e1: nat, e2: nat, e3: nat, e4: nat) returns (h: Limbs)
    requires d == Limbs(e0, e1, e2, e3, e4)
    requires d.a0 < 0x300_0000_0000_0000 && d.a1 < 0x300_0000_0000_0000 && d.a2 < 0x300_0000_0000_0000
    requires d.a3 < 0x300_0000_0000_0000 && d.a4 < 0x90_0000_0000_0000
    ensures Between(h)
    ensures exists k: nat :: V(h) + k * P == V(d)
  {
    var d0, d1, d2, d3, d4 := e0, e1, e2, e3, e4;
    var c := U32(d0 / 0x400_0000);
    var h0 := Low26(d0);
    ghost var c0, l0 := c, h0;
    assert d0 == c0 * 0x400_0000 + l0;
    d1 := U64(d1 + c);
    c := U32(d1 / 0x400_0000);
    var h1 := Low26(d1);
    ghost var c1, l1 := c, h1;
    assert d1 == c1 * 0x400_0000 + l1;
    d2 := U64(d2 + c);
    c := U32(d2 / 0x400_0000);
    var h2 := Low26(d2);
    ghost var c2, l2 := c, h2;
    assert d2 == c2 * 0x400_0000 + l2;
    d3 := U64(d3 + c);
    c := U32(d3 / 0x400_0000);
    var h3 := Low26(d3);
    ghost var c3, l3 := c, h3;
    assert d3 == c3 * 0x400_0000 + l3;
    d4 := U64(d4 + c);
    c := U32(d4 / 0x400_0000);
    var h4 := Low26(d4);
    ghost var c4, l4 := c, h4;
    assert d4 == c4 * 0x400_0000 + l4;
    h0 := U32(h0 + U32(c * 5));
    c := h0 / 0x400_0000;
    h0 := Low26(h0);
    h1 := U32(h1 + c);
    h := Limbs(h0, h1, h2, h3, h4);
    CarryValue(d, c0, c1, c2, c3, c4, c, h);
  }

  // ----- The last reduction -----

  predicate Canonical(h: Limbs)
  {
    h.a0 <= 0x3ffffff && h.a1 <= 0x3ffffff && h.a2 <= 0x3ffffff && h.a3 <= 0x3ffffff && h.a4 <= 0x3ffffff
  }

  /** The carries before the comparison with P. The final one cannot push the second
      limb past 26 bits: a carry out of the top limb needs a carry out of the second,
      which leaves that one below 64. */
  method FinalCarry(s: Limbs) returns (h: Limbs)
    requires Between(s)
    ensures Canonical(h)
    ensures exists k: nat :: V(h) + k * P == V(s)
  {
    var h0, h1, h2, h3, h4 := s.a0, s.a1, s.a2, s.a3, s.a4;
    var c := h1 / 0x400_0000;
    h1 := Low26(h1);
    ghost var c1, l1 := c, h1;
    h2 := U32(h2 + c);
    c := h2 / 0x400_0000;
    h2 := Low26(h2);
    ghost var c2 := c;
    h3 := U32(h3 + c);
    c := h3 / 0x400_0000;
    h3 := Low26(h3);
    ghost var c3 := c;
    h4 := U32(h4 + c);
    c := h4 / 0x400_0000;
    h4 := Low26(h4);
    ghost var c4 := c;
    assert c4 == 1 ==> l1 < 64;
    h0 := U32(h0 + U32(c * 5));
    c := h0 / 0x400_0000;
    h0 := Low26(h0);
    assert c == 1 ==> c4 == 1;
    h1 := U32(h1 + c);
    h := Limbs(h0, h1, h2, h3, h4);
    FinalCarryValue(s, c1, c2, c3, c4, c, h);
  }

  lemma FinalCarryValue(s: Limbs, c1: nat, c2: nat, c3: nat, c4: nat, c5: nat, h: Limbs)
    requires h.a1 >= c5
    requires s.a1 == c1 * 0x400_0000 + (h.a1 - c5)
    requires s.a2 + c1 == c2 * 0x400_0000 + h.a2
    requires s.a3 + c2 == c3 * 0x400_0000 + h.a3
    requires s.a4 + c3 == c4 * 0x400_0000 + h.a4
    requires s.a0 + 5 * c4 == c5 * 0x400_0000 + h.a0
    ensures V(h) + c4 * P == V(s)
  {
  }

  /** `(h & ~mask) | (g & mask)`, which is what the two rounds of masking leave. */
  method Pick(h: nat, g: nat, mask: nat) returns (r: nat)
    requires h < 0x1_0000_0000 && g < 0x1_0000_0000
    requires mask == 0 || mask == 0xffff_ffff
    ensures r == if mask == 0 then h else g
  {
    r := Or(And(h, 0xffff_ffff - mask), And(g, mask));
    Pow2Values();
    AndOnes(32, h);
    AndOnes(32, g);
  }

  /** g = h + 5, whose top limb is left uncarried. */
  method AddFive(s: Limbs) returns (g: Limbs)
    requires Canonical(s)
    ensures V(g) == V(s) + 5
    ensures g.a0 <= 0x3ffffff && g.a1 <= 0x3ffffff && g.a2 <= 0x3ffffff && g.a3 <= 0x3ffffff && g.a4 <= 0x3ffffff + 1
  {
    var g0 := U32(s.a0 + 5);
    var c := g0 / 0x400_0000;
    g0 := Low26(g0);
    ghost var c0 := c;
    var g1 := U32(s.a1 + c);
    c := g1 / 0x400_0000;
    g1 := Low26(g1);
    ghost var c1 := c;
    var g2 := U32(s.a2 + c);
    c := g2 / 0x400_0000;
    g2 := Low26(g2);
    ghost var c2 := c;
    var g3 := U32(s.a3 + c);
    c := g3 / 0x400_0000;
    g3 := Low26(g3);
    g := Limbs(g0, g1, g2, g3, s.a4 + c);
    CarryFive(s, c0, c1, c2, c, g);
  }

  /** Taking 2^26 from the top limb of h + 5 borrows exactly when h is below P, and
      the masks made of that borrow pick the difference or the original. */
  method SubtractIfNotBelow(s: Limbs) returns (h: Limbs)
    requires Canonical(s)
    ensures Canonical(h) && V(h) == V(s) % P
  {
    var g := AddFive(s);
    var g4 := U32(g.a4 + (0x1_0000_0000 - 0x400_0000));
    var mask := U32(g4 as nat / 0x8000_0000 + 0xffff_ffff);
    MaskOf(g.a4, g4, mask);
    var h0 := Pick(s.a0, g.a0, mask);
    var h1 := Pick(s.a1, g.a1, mask);
    var h2 := Pick(s.a2, g.a2, mask);
    var h3 := Pick(s.a3, g.a3, mask);
    var h4 := Pick(s.a4, g4, mask);
    h := Limbs(h0, h1, h2, h3, h4);
    CompareWithP(s, g, h);
  }

  lemma MaskOf(top: nat, g4: nat, mask: nat)
    requires top <= 0x3ffffff + 1
    requires g4 == U32(top + (0x1_0000_0000 - 0x400_0000))
    requires mask == U32(g4 as nat / 0x8000_0000 + 0xffff_ffff)
    ensures if top <= 0x3ffffff then mask == 0 else mask == 0xffff_ffff && g4 == 0
  {
  }

  lemma CarryFive(s: Limbs, c0: nat, c1: nat, c2: nat, c3: nat, g: Limbs)
    requires s.a0 + 5 == c0 * 0x400_0000 + g.a0
    requires s.a1 + c0 == c1 * 0x400_0000 + g.a1
    requires s.a2 + c1 == c2 * 0x400_0000 + g.a2
    requires s.a3 + c2 == c3 * 0x400_0000 + g.a3
    requires s.a4 + c3 == g.a4
    ensures V(g) == V(s) + 5
  {
  }

  lemma CompareWithP(s: Limbs, g: Limbs, h: Limbs)
    requires Canonical(s) && V(g) == V(s) + 5
    requires g.a0 <= 0x3ffffff && g.a1 <= 0x3ffffff && g.a2 <= 0x3ffffff && g.a3 <= 0x3ffffff && g.a4 <= 0x400_0000
    requires h == if g.a4 < 0x400_0000 then s else Limbs(g.a0, g.a1, g.a2, g.a3, 0)
    ensures Canonical(h) && V(h) == V(s) % P
  {
    if g.a4 < 0x400_0000 {
      assert V(s) < P;
    } else {
      assert V(h) + P == V(s);
      assert V(h) < P;
    }
  }

  // ----- Packing the tag -----

  /** The low 128 bits of the limbs as four words: neighbours shifted and OR-ed.
      The limbs being below 2^26, no two of them meet in a bit. */
  method Pack(h: Limbs) returns (w0: nat, w1: nat, w2: nat, w3: nat, ghost q: nat)
    requires Canonical(h)
    ensures w0 < 0x1_0000_0000 && w1 < 0x1_0000_0000 && w2 < 0x1_0000_0000 && w3 < 0x1_0000_0000
    ensures V(h) == FourWords(w0, w1, w2, w3) + q * 0x1_0000_0000_0000_0000_0000_0000_0000_0000
  {
    w0 := Or(h.a0, U32(h.a1 * 0x400_0000));
    w1 := Or(h.a1 / 0x40, U32(h.a2 * 0x10_0000));
    w2 := Or(h.a2 / 0x1000, U32(h.a3 * 0x4000));
    w3 := Or(h.a3 / 0x4_0000, U32(h.a4 * 0x100));
    OrShift26(h.a0, h.a1 % 0x40);
    OrShift20(h.a1 / 0x40, h.a2 % 0x1000);
    OrShift14(h.a2 / 0x1000, h.a3 % 0x4_0000);
    OrShift8(h.a3 / 0x4_0000, h.a4 % 0x100_0000);
    ShiftKept(h);
    PackIdentity(h, FourWords(w0, w1, w2, w3));
    q := h.a4 / 0x100_0000;
  }

  lemma LowPart(v: nat, w: nat, q: nat)
    requires v == w + q * 0x1_0000_0000_0000_0000_0000_0000_0000_0000 && w < 0x1_0000_0000_0000_0000_0000_0000_0000_0000
    ensures v % 0x1_0000_0000_0000_0000_0000_0000_0000_0000 == w
  {
  }

  lemma PackIdentity(h: Limbs, w: nat)
    requires w == FourWords(h.a0 + 0x400_0000 * (h.a1 % 0x40), h.a1 / 0x40 + 0x10_0000 * (h.a2 % 0x1000),
                            h.a2 / 0x1000 + 0x4000 * (h.a3 % 0x4_0000), h.a3 / 0x4_0000 + 0x100 * (h.a4 % 0x100_0000))
    ensures V(h) == w + (h.a4 / 0x100_0000) * 0x1_0000_0000_0000_0000_0000_0000_0000_0000
  {
  }

  lemma ShiftKept(h: Limbs)
    ensures U32(h.a1 * 0x400_0000) == (h.a1 % 0x40) * 0x400_0000
    ensures U32(h.a2 * 0x10_0000) == (h.a2 % 0x1000) * 0x10_0000
    ensures U32(h.a3 * 0x4000) == (h.a3 % 0x4_0000) * 0x4000
    ensures U32(h.a4 * 0x100) == (h.a4 % 0x100_0000) * 0x100
  {
  }

  lemma {:induction false} LEAppend(a: seq<byte>, b: seq<byte>)
    ensures LE(a + b) == LE(a) + Pow2(8 * |a|) * LE(b)
  {
    if a == [] {
      assert a + b == b;
    } else {
      assert (a + b)[1..] == a[1..] + b;
      LEAppend(a[1..], b);
      Pow2Values();
      Pow2Add(8, 8 * (|a| - 1));
      Mul256(LE(a[1..]), Pow2(8 * (|a| - 1)), LE(b));
      assert Pow2(8 * |a|) == 256 * Pow2(8 * (|a| - 1));
    }
  }

  lemma Mul256(x: nat, p: nat, y: nat)
    ensures 256 * (x + p * y) == 256 * x + (256 * p) * y
  {
  }

  lemma {:induction false} LEZeros(n: nat)
    ensures LE(seq(n, i => 0)) == 0
  {
    if n > 0 {
      var z: seq<byte> := seq(n, i => 0);
      assert z[1..] == seq(n - 1, i => 0);
      LEZeros(n - 1);
    }
  }

  lemma Pow2Of128()
    ensures Pow2(128) == 0x1_0000_0000_0000_0000_0000_0000_0000_0000
  {
    Pow2Values();
    Pow2Add(32, 32);
    Pow2Add(64, 64);
  }

  lemma {:induction false} LEBound(b: seq<byte>)
    ensures LE(b) < Pow2(8 * |b|)
  {
    if b != [] {
      LEBound(b[1..]);
      Pow2Values();
      Pow2Add(8, 8 * (|b| - 1));
    }
  }

  /** Whole blocks taken by poly_blocks are whole blocks of the standard. */
  lemma {:induction false} BlocksArePoly(a: nat, r: nat, m: seq<byte>, rest: seq<byte>)
    requires |m| % 16 == 0
    ensures PolyAcc(a, r, m + rest) == PolyAcc(BlocksAcc(a, r, m, 0x1_0000_0000_0000_0000_0000_0000_0000_0000), r, rest)
    decreases |m|
  {
    if m == [] {
      assert m + rest == rest;
    } else {
      Pow2Of128();
      assert (m + rest)[..16] == m[..16] && (m + rest)[16..] == m[16..] + rest;
      BlocksArePoly(MulMod(a + (LE(m[..16]) + 0x1_0000_0000_0000_0000_0000_0000_0000_0000), r), r, m[16..], rest);
    }
  }

  lemma {:induction false} BlocksAppend(a: nat, r: nat, m: seq<byte>, n: seq<byte>, hi: nat)
    requires |m| % 16 == 0
    ensures BlocksAcc(a, r, m + n, hi) == BlocksAcc(BlocksAcc(a, r, m, hi), r, n, hi)
    decreases |m|
  {
    if m == [] {
      assert m + n == n;
    } else {
      assert (m + n)[..16] == m[..16] && (m + n)[16..] == m[16..] + n;
      BlocksAppend(MulMod(a + (LE(m[..16]) + hi), r), r, m[16..], n, hi);
    }
  }

  /** ToLE undoes LE. */
  lemma {:induction false} ToLEOfLE(b: seq<byte>)
    ensures ToLE(|b|, LE(b)) == b
  {
    if b != [] {
      ToLEOfLE(b[1..]);
      var lo, hi := b[0], LE(b[1..]);
      assert LE(b) % 256 == lo && LE(b) / 256 == hi;
      assert ToLE(|b|, LE(b)) == [LE(b) % 256] + ToLE(|b| - 1, LE(b) / 256);
    }
  }

  lemma LoadStored(w: nat)
    requires w < 0x1_0000_0000
    ensures Load32(WordBytes(w), 0) == w
  {
    WordSplit(w, w % 256, w / 0x100 % 256, w / 0x1_0000 % 256, w / 0x100_0000 % 256);
  }

  lemma WordSplit(w: nat, b0: nat, b1: nat, b2: nat, b3: nat)
    requires w < 0x1_0000_0000
    requires b0 == w % 256 && b1 == w / 0x100 % 256 && b2 == w / 0x1_0000 % 256 && b3 == w / 0x100_0000 % 256
    ensures w == b0 + 0x100 * b1 + 0x1_0000 * b2 + 0x100_0000 * b3
  {
  }

  /** The four casts that store a word: `(uint8_t)w, (uint8_t)(w >> 8), ...` */
  function WordBytes(w: nat): seq<byte>
  {
    [w % 256, w / 0x100 % 256, w / 0x1_0000 % 256, w / 0x100_0000 % 256]
  }

  lemma LEOfWords(w0: nat, w1: nat, w2: nat, w3: nat)
    requires w0 < 0x1_0000_0000 && w1 < 0x1_0000_0000 && w2 < 0x1_0000_0000 && w3 < 0x1_0000_0000
    ensures LE(WordBytes(w0) + WordBytes(w1) + WordBytes(w2) + WordBytes(w3)) == FourWords(w0, w1, w2, w3)
  {
    var b0, b1, b2, b3 := WordBytes(w0), WordBytes(w1), WordBytes(w2), WordBytes(w3);
    var b := b0 + b1 + b2 + b3;
    LEWords(b);
    assert b[0] == b0[0] && b[1] == b0[1] && b[2] == b0[2] && b[3] == b0[3];
    assert b[4] == b1[0] && b[5] == b1[1] && b[6] == b1[2] && b[7] == b1[3];
    assert b[8] == b2[0] && b[9] == b2[1] && b[10] == b2[2] && b[11] == b2[3];
    assert b[12] == b3[0] && b[13] == b3[1] && b[14] == b3[2] && b[15] == b3[3];
    assert Load32(b, 0) == w0 by { LoadStored(w0); }
    assert Load32(b, 4) == w1 by { LoadStored(w1); }
    assert Load32(b, 8) == w2 by { LoadStored(w2); }
    assert Load32(b, 12) == w3 by { LoadStored(w3); }
  }

  lemma InitR(key: seq<byte>, r: Limbs)
    requires |key| == 32
    requires r == KeyLimbs(Load32(key, 0), Load32(key, 4), Load32(key, 8), Load32(key, 12))
    ensures Clamped(r) && Val(r) == RValue(key)
  {
    var n := FourWords(Load32(key, 0), Load32(key, 4), Load32(key, 8), Load32(key, 12));
    assert n == LE(key[..16]) by {
      assert key[0..16] == key[..16];
      LEWordsAt(key, 0);
    }
    assert Clamped(r) && V(r) == And(n, CLAMP) by {
      ClampLimbs(Load32(key, 0), Load32(key, 4), Load32(key, 8), Load32(key, 12));
    }
    ValIsV(r);
  }

  lemma InitPad(key: seq<byte>)
    requires |key| == 32
    ensures FourWords(Load32(key, 16), Load32(key, 20), Load32(key, 24), Load32(key, 28)) == LE(key[16..])
  {
    assert key[16..32] == key[16..];
    LEWordsAt(key, 16);
  }

  lemma ZeroValue()
    ensures Val(Limbs(0, 0, 0, 0, 0)) == 0
  {
    ValIsV(Limbs(0, 0, 0, 0, 0));
  }

  /** The accumulator `poly_t`. */
  class Poly {
    var r: Limbs
    var h: Limbs
    var pad0: nat
    var pad1: nat
    var pad2: nat
    var pad3: nat

    ghost predicate Valid()
      reads this
    {
      Between(h) && Clamped(r) && pad0 < 0x1_0000_0000 && pad1 < 0x1_0000_0000 && pad2 < 0x1_0000_0000 && pad3 < 0x1_0000_0000
    }

    /** The accumulator's value as the standard counts it. */
    ghost function Acc(): nat
      reads this
    {
      Val(h) % P
    }

    ghost function S(): nat
      reads this
    {
      FourWords(pad0, pad1, pad2, pad3)
    }

    /** poly_init */
    constructor (key: seq<byte>)
      requires |key| == 32
      ensures Valid() && Acc() == 0
      ensures Val(r) == RValue(key)
      ensures S() == LE(key[16..])
    {
      var t0 := LoadWord(key, 0);
      var t1 := LoadWord(key, 4);
      var t2 := LoadWord(key, 8);
      var t3 := LoadWord(key, 12);
      var r1 := Funnel26(t0, t1, 0x3ffff03);
      var r2 := Funnel20(t1, t2, 0x3ffc0ff);
      var r3 := Funnel14(t2, t3, 0x3f03fff);
      var r0 := Low26(t0);
      r := Limbs(r0, r1, r2, r3, And(t3 / 0x100, 0x00fffff));
      h := Limbs(0, 0, 0, 0, 0);
      var p0 := LoadWord(key, 16);
      var p1 := LoadWord(key, 20);
      var p2 := LoadWord(key, 24);
      var p3 := LoadWord(key, 28);
      pad0, pad1, pad2, pad3 := p0, p1, p2, p3;
      new;
      InitR(key, r);
      InitPad(key);
      ZeroValue();
    }

    /** poly_blocks: takes every whole block of m and leaves a shorter end alone. */
    method Blocks(m: seq<byte>, final: bool)
      requires Valid()
      modifies this`h
      ensures Valid()
      ensures Acc() == BlocksAcc(old(Acc()), Val(r), m, if final then 0 else 0x1_0000_0000_0000_0000_0000_0000_0000_0000)
    {
      var hibit := if final then 0 else 0x100_0000;
      ghost var hi := if final then 0 else 0x1_0000_0000_0000_0000_0000_0000_0000_0000;
      var i := 0;
      while |m| - i >= 16
        invariant 0 <= i <= |m| && Valid()
        invariant BlocksAcc(Acc(), Val(r), m[i..], hi) == BlocksAcc(old(Acc()), Val(r), m, hi)
      {
        assert m[i..][..16] == m[i..i + 16] && m[i..][16..] == m[i + 16..];
        h := AddAndMultiply(h, r, m[i..i + 16], hibit);
        i := i + 16;
      }
    }

    /** The short last block: padded with a one and zeros, and taken without the high bit. */
    method LastBlock(m: seq<byte>)
      requires Valid() && |m| < 16
      modifies this`h
      ensures Valid() && Acc() == PolyAcc(old(Acc()), Val(r), m)
    {
      if |m| > 0 {
        var block := m + [1] + seq(15 - |m|, i => 0);
        PaddedBlock(m, Acc(), Val(r));
        Blocks(block, true);
      }
    }

    /** poly_finish */
    method Finish(m: seq<byte>) returns (tag: seq<byte>, ghost q: nat)
      requires Valid() && |m| < 16
      modifies this
      ensures |tag| == 16
      ensures LE(tag) + q * 0x1_0000_0000_0000_0000_0000_0000_0000_0000 == PolyAcc(old(Acc()), old(Val(r)), m) + old(S())
    {
      LastBlock(m);
      var l := Reduce(h);
      var a0, a1, a2, a3, q0 := Pack(l);
      tag, q := AddPad(a0, a1, a2, a3, pad0, pad1, pad2, pad3);
      q := q + q0;
      r, h := Limbs(0, 0, 0, 0, 0), Limbs(0, 0, 0, 0, 0);
      pad0, pad1, pad2, pad3 := 0, 0, 0, 0;
    }
  }

  method Reduce(h: Limbs) returns (l: Limbs)
    requires Between(h)
    ensures Canonical(l) && V(l) == Val(h) % P
  {
    var s := FinalCarry(h);
    ghost var k :| V(s) + k * P == V(h);
    l := SubtractIfNotBelow(s);
    ValIsV(h);
    ShiftedBack(V(h), V(s), k);
  }

  lemma {:induction false} PaddedBlock(m: seq<byte>, a: nat, r: nat)
    requires 0 < |m| < 16
    ensures BlocksAcc(a, r, m + [1] + seq(15 - |m|, i => 0), 0) == PolyAcc(a, r, m)
  {
    var zeros: seq<byte> := seq(15 - |m|, i => 0);
    var block := m + [1] + zeros;
    assert block == m + ([1] + zeros);
    LEAppend(m, [1] + zeros);
    assert ([1] + zeros)[1..] == zeros;
    LEZeros(15 - |m|);
    assert LE([1] + zeros) == 1;
    assert block[..16] == block && m[..|m|] == m && m[|m|..] == [];
    assert LE(block) == LE(m) + Pow2(8 * |m|);
  }

  /** The 128-bit addition of the second half of the key, word by word. */
  method AddPad(a0: nat, a1: nat, a2: nat, a3: nat, pad0: nat, pad1: nat, pad2: nat, pad3: nat)
    returns (tag: seq<byte>, ghost q: nat)
    requires a0 < 0x1_0000_0000 && a1 < 0x1_0000_0000 && a2 < 0x1_0000_0000 && a3 < 0x1_0000_0000
    requires pad0 < 0x1_0000_0000 && pad1 < 0x1_0000_0000 && pad2 < 0x1_0000_0000 && pad3 < 0x1_0000_0000
    ensures |tag| == 16
    ensures LE(tag) + q * 0x1_0000_0000_0000_0000_0000_0000_0000_0000 == FourWords(a0, a1, a2, a3) + FourWords(pad0, pad1, pad2, pad3)
  {
    var w0, c0 := AddWords(a0, pad0, 0);
    var w1, c1 := AddWords(a1, pad1, c0);
    var w2, c2 := AddWords(a2, pad2, c1);
    var w3, c3 := AddWords(a3, pad3, c2);
    tag := StoreWords([w0, w1, w2, w3]);
    LEOfWords(w0, w1, w2, w3);
    SumValue(a0, a1, a2, a3, pad0, pad1, pad2, pad3, w0, w1, w2, w3, c0, c1, c2, c3);
    q := c3;
  }

  /** `f = a + b + (f >> 32)` in 64 bits, then `(uint32_t)f`. */
  method AddWords(a: nat, b: nat, carry: nat) returns (w: nat, c: nat)
    requires a < 0x1_0000_0000 && b < 0x1_0000_0000 && carry <= 1
    ensures w < 0x1_0000_0000 && c <= 1 && a + b + carry == c * 0x1_0000_0000 + w
  {
    var f := U64(a + b + carry);
    w := U32(f);
    c := f / 0x1_0000_0000;
  }

  method StoreWords(w: seq<nat>) returns (tag: seq<byte>)
    requires |w| == 4
    ensures tag == WordBytes(w[0]) + WordBytes(w[1]) + WordBytes(w[2]) + WordBytes(w[3])
  {
    tag := [];
    for i := 0 to 4
      invariant tag == (if i > 0 then WordBytes(w[0]) else []) + (if i > 1 then WordBytes(w[1]) else [])
                       + (if i > 2 then WordBytes(w[2]) else []) + (if i > 3 then WordBytes(w[3]) else [])
    {
      tag := tag + WordBytes(w[i]);
    }
  }

  lemma SumValue(a0: nat, a1: nat, a2: nat, a3: nat, b0: nat, b1: nat, b2: nat, b3: nat,
                 w0: nat, w1: nat, w2: nat, w3: nat, c0: nat, c1: nat, c2: nat, c3: nat)
    requires w0 < 0x1_0000_0000 && w1 < 0x1_0000_0000 && w2 < 0x1_0000_0000 && w3 < 0x1_0000_0000
    requires a0 + b0 == c0 * 0x1_0000_0000 + w0
    requires a1 + b1 + c0 == c1 * 0x1_0000_0000 + w1
    requires a2 + b2 + c1 == c2 * 0x1_0000_0000 + w2
    requires a3 + b3 + c2 == c3 * 0x1_0000_0000 + w3
    ensures FourWords(a0, a1, a2, a3) + FourWords(b0, b1, b2, b3) == FourWords(w0, w1, w2, w3) + c3 * 0x1_0000_0000_0000_0000_0000_0000_0000_0000
  {
  }

  /** A sixteen-byte number that differs from the sum by a multiple of 2^128 is the tag. */
  lemma {:induction false} TagIs(key: seq<byte>, m: seq<byte>, tag: seq<byte>, q: nat)
    requires |key| == 32 && |tag| == 16
    requires LE(tag) + q * 0x1_0000_0000_0000_0000_0000_0000_0000_0000 == PolyAcc(0, RValue(key), m) + LE(key[16..])
    ensures tag == Tag(key, m)
  {
    LEBound(tag);
    Pow2Of128();
    LowPart(PolyAcc(0, RValue(key), m) + LE(key[16..]), LE(tag), q);
    ToLEOfLE(tag);
  }

  lemma TagOfParts(key: seq<byte>, m: seq<byte>, front: seq<byte>, rest: seq<byte>, zero: nat, acc: nat, tag: seq<byte>, q: nat)
    requires |key| == 32 && |tag| == 16 && m == front + rest && |front| % 16 == 0 && zero == 0
    requires acc == BlocksAcc(zero, RValue(key), front, 0x1_0000_0000_0000_0000_0000_0000_0000_0000)
    requires LE(tag) + q * 0x1_0000_0000_0000_0000_0000_0000_0000_0000 == PolyAcc(acc, RValue(key), rest) + LE(key[16..])
    ensures tag == Tag(key, m)
  {
    BlocksArePoly(zero, RValue(key), front, rest);
    TagIs(key, m, tag, q);
  }

  lemma WholeBlocks(n: nat)
    ensures (n - n % 16) % 16 == 0
  {
  }

  /** The whole authenticator: whole blocks, then the rest. */
  method Authenticate(key: seq<byte>, m: seq<byte>) returns (tag: seq<byte>)
    requires |key| == 32
    ensures tag == Tag(key, m)
  {
    var p := new Poly(key);
    ghost var zero := p.Acc();
    var full := |m| - |m| % 16;
    WholeBlocks(|m|);
    p.Blocks(m[..full], false);
    ghost var acc := p.Acc();
    ghost var q;
    tag, q := p.Finish(m[full..]);
    TagOfParts(key, m, m[..full], m[full..], zero, acc, tag, q);
  }
}
