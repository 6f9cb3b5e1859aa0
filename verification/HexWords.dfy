/** Words as eight hexadecimal digits, for worked examples: sums, exclusive ors and rotations
    digit by digit, and why they are those of the numbers. */
module HexWords {
  import opened Bits

  /** A digit, by its bits. */
  datatype Digit = Digit(b3: bool, b2: bool, b1: bool, b0: bool)

  datatype Hex = Hex(h7: Digit, h6: Digit, h5: Digit, h4: Digit, h3: Digit, h2: Digit, h1: Digit, h0: Digit)

  const D0 := Digit(false, false, false, false)
  const D1 := Digit(false, false, false, true)
  const D2 := Digit(false, false, true, false)
  const D3 := Digit(false, false, true, true)
  const D4 := Digit(false, true, false, false)
  const D5 := Digit(false, true, false, true)
  const D6 := Digit(false, true, true, false)
  const D7 := Digit(false, true, true, true)
  const D8 := Digit(true, false, false, false)
  const D9 := Digit(true, false, false, true)
  const DA := Digit(true, false, true, false)
  const DB := Digit(true, false, true, true)
  const DC := Digit(true, true, false, false)
  const DD := Digit(true, true, false, true)
  const DE := Digit(true, true, true, false)
  const DF := Digit(true, true, true, true)

  // ----- Numbers -----

  function Bit01(b: bool): (n: nat)
    ensures n <= 1
  {
    if b then 1 else 0
  }

  function Val(d: Digit): (n: nat)
    ensures n < 16
  {
    8 * Bit01(d.b3) + 4 * Bit01(d.b2) + 2 * Bit01(d.b1) + Bit01(d.b0)
  }

  /** The two bytes and the word that digits make. */
  function Pair(x: Digit, y: Digit): byte
  {
    16 * Val(x) + Val(y)
  }

  function Num(w: Hex): word
  {
    Pair(w.h1, w.h0) + 0x100 * Pair(w.h3, w.h2) + 0x1_0000 * Pair(w.h5, w.h4) + 0x100_0000 * Pair(w.h7, w.h6)
  }

  /** A word by the values of its digits. */
  lemma NumBy(w: Hex, d7: nat, d6: nat, d5: nat, d4: nat, d3: nat, d2: nat, d1: nat, d0: nat)
    requires Val(w.h7) == d7 && Val(w.h6) == d6 && Val(w.h5) == d5 && Val(w.h4) == d4
    requires Val(w.h3) == d3 && Val(w.h2) == d2 && Val(w.h1) == d1 && Val(w.h0) == d0
    ensures Num(w) == d0 + 0x10 * d1 + 0x100 * d2 + 0x1000 * d3 + 0x1_0000 * d4 + 0x10_0000 * d5 + 0x100_0000 * d6 + 0x1000_0000 * d7
  {
  }

  lemma LowByte(x: nat, q: nat, r: nat)
    requires x == 0x100 * q + r && r < 0x100
    ensures x / 0x100 == q && x % 0x100 == r
  {
  }

  // ----- Exclusive or -----

  function XorDigit(x: Digit, y: Digit): Digit
  {
    Digit(x.b3 != y.b3, x.b2 != y.b2, x.b1 != y.b1, x.b0 != y.b0)
  }

  function XorHex(a: Hex, b: Hex): Hex
  {
    Hex(XorDigit(a.h7, b.h7), XorDigit(a.h6, b.h6), XorDigit(a.h5, b.h5), XorDigit(a.h4, b.h4),
        XorDigit(a.h3, b.h3), XorDigit(a.h2, b.h2), XorDigit(a.h1, b.h1), XorDigit(a.h0, b.h0))
  }

  /** One digit more at the low end. */
  function Cat(p: nat, d: Digit): nat
  {
    16 * p + Val(d)
  }

  /** One bit more at the low end. */
  function Push(p: nat, b: bool): nat
  {
    2 * p + Bit01(b)
  }

  lemma XorBit(p: nat, q: nat, x: bool, y: bool)
    ensures Xor(Push(p, x), Push(q, y)) == Push(Xor(p, q), x != y)
  {
    var a, b := Push(p, x), Push(q, y);
    assert a / 2 == p && b / 2 == q;
    if a == 0 {
      assert Xor(a, b) == b && Xor(p, q) == q;
    } else if b == 0 {
      assert Xor(a, b) == a && Xor(p, q) == p;
    }
  }

  lemma XorMore(p: nat, q: nat, x: Digit, y: Digit)
    ensures Xor(Cat(p, x), Cat(q, y)) == Cat(Xor(p, q), XorDigit(x, y))
  {
    XorFour(p, q, x.b3, x.b2, x.b1, x.b0, y.b3, y.b2, y.b1, y.b0);
    CatIs(p, x);
    CatIs(q, y);
    CatIs(Xor(p, q), XorDigit(x, y));
  }

  lemma CatIs(p: nat, x: Digit)
    ensures Cat(p, x) == Four(p, x.b3, x.b2, x.b1, x.b0)
  {
  }

  lemma XorFour(p: nat, q: nat, x3: bool, x2: bool, x1: bool, x0: bool, y3: bool, y2: bool, y1: bool, y0: bool)
    ensures Xor(Four(p, x3, x2, x1, x0), Four(q, y3, y2, y1, y0)) == Four(Xor(p, q), x3 != y3, x2 != y2, x1 != y1, x0 != y0)
  {
    XorTwo(p, q, x3, x2, y3, y2);
    XorTwo(Two(p, x3, x2), Two(q, y3, y2), x1, x0, y1, y0);
    FourIs(p, x3, x2, x1, x0);
    FourIs(q, y3, y2, y1, y0);
    FourIs(Xor(p, q), x3 != y3, x2 != y2, x1 != y1, x0 != y0);
  }

  lemma XorTwo(p: nat, q: nat, x1: bool, x0: bool, y1: bool, y0: bool)
    ensures Xor(Two(p, x1, x0), Two(q, y1, y0)) == Two(Xor(p, q), x1 != y1, x0 != y0)
  {
    XorBit(p, q, x1, y1);
    XorBit(Push(p, x1), Push(q, y1), x0, y0);
  }

  /** Two bits more, and four. */
  function Two(p: nat, b1: bool, b0: bool): nat
  {
    Push(Push(p, b1), b0)
  }

  function Four(p: nat, b3: bool, b2: bool, b1: bool, b0: bool): nat
  {
    16 * p + 8 * Bit01(b3) + 4 * Bit01(b2) + 2 * Bit01(b1) + Bit01(b0)
  }

  lemma FourIs(p: nat, b3: bool, b2: bool, b1: bool, b0: bool)
    ensures Four(p, b3, b2, b1, b0) == Two(Two(p, b3, b2), b1, b0)
  {
  }

  lemma NumIs(w: Hex)
    ensures Num(w) == Cat(Cat(Cat(Cat(Cat(Cat(Cat(Cat(0, w.h7), w.h6), w.h5), w.h4), w.h3), w.h2), w.h1), w.h0)
  {
  }

  lemma XorIs(a: Hex, b: Hex)
    ensures XorWord(Num(a), Num(b)) == Num(XorHex(a, b))
  {
    NumIs(a);
    NumIs(b);
    NumIs(XorHex(a, b));
    var p7, q7 := Cat(0, a.h7), Cat(0, b.h7);
    var p6, q6 := Cat(p7, a.h6), Cat(q7, b.h6);
    var p5, q5 := Cat(p6, a.h5), Cat(q6, b.h5);
    var p4, q4 := Cat(p5, a.h4), Cat(q5, b.h4);
    var p3, q3 := Cat(p4, a.h3), Cat(q4, b.h3);
    var p2, q2 := Cat(p3, a.h2), Cat(q3, b.h2);
    var p1, q1 := Cat(p2, a.h1), Cat(q2, b.h1);
    XorMore(0, 0, a.h7, b.h7);
    XorMore(p7, q7, a.h6, b.h6);
    XorMore(p6, q6, a.h5, b.h5);
    XorMore(p5, q5, a.h4, b.h4);
    XorMore(p4, q4, a.h3, b.h3);
    XorMore(p3, q3, a.h2, b.h2);
    XorMore(p2, q2, a.h1, b.h1);
    XorMore(p1, q1, a.h0, b.h0);
  }

  // ----- Sums -----

  predicate Carry(x: bool, y: bool, c: bool)
  {
    (x && y) || (c && (x || y))
  }

  predicate CarryOut(x: Digit, y: Digit, c: bool)
  {
    Carry(x.b3, y.b3, Carry(x.b2, y.b2, Carry(x.b1, y.b1, Carry(x.b0, y.b0, c))))
  }

  function AddDigit(x: Digit, y: Digit, c: bool): Digit
  {
    var c1 := Carry(x.b0, y.b0, c);
    var c2 := Carry(x.b1, y.b1, c1);
    var c3 := Carry(x.b2, y.b2, c2);
    Digit((x.b3 != y.b3) != c3, (x.b2 != y.b2) != c2, (x.b1 != y.b1) != c1, (x.b0 != y.b0) != c)
  }

  function AddHex(a: Hex, b: Hex): Hex
  {
    var c1 := CarryOut(a.h0, b.h0, false);
    var c2 := CarryOut(a.h1, b.h1, c1);
    var c3 := CarryOut(a.h2, b.h2, c2);
    var c4 := CarryOut(a.h3, b.h3, c3);
    var c5 := CarryOut(a.h4, b.h4, c4);
    var c6 := CarryOut(a.h5, b.h5, c5);
    var c7 := CarryOut(a.h6, b.h6, c6);
    Hex(AddDigit(a.h7, b.h7, c7), AddDigit(a.h6, b.h6, c6), AddDigit(a.h5, b.h5, c5), AddDigit(a.h4, b.h4, c4),
        AddDigit(a.h3, b.h3, c3), AddDigit(a.h2, b.h2, c2), AddDigit(a.h1, b.h1, c1), AddDigit(a.h0, b.h0, false))
  }

  lemma CarryBit(x: bool, y: bool, c: bool)
    ensures Bit01(x) + Bit01(y) + Bit01(c) == Bit01((x != y) != c) + 2 * Bit01(Carry(x, y, c))
  {
  }

  lemma AddDigitIs(x: Digit, y: Digit, c: bool)
    ensures Val(x) + Val(y) + Bit01(c) == Val(AddDigit(x, y, c)) + 16 * Bit01(CarryOut(x, y, c))
  {
    var c1 := Carry(x.b0, y.b0, c);
    var c2 := Carry(x.b1, y.b1, c1);
    var c3 := Carry(x.b2, y.b2, c2);
    CarryBit(x.b0, y.b0, c);
    CarryBit(x.b1, y.b1, c1);
    CarryBit(x.b2, y.b2, c2);
    CarryBit(x.b3, y.b3, c3);
  }

  lemma AddIs(a: Hex, b: Hex)
    ensures AddWord(Num(a), Num(b)) == Num(AddHex(a, b))
  {
    var s := AddHex(a, b);
    var c1 := CarryOut(a.h0, b.h0, false);
    var c2 := CarryOut(a.h1, b.h1, c1);
    var c3 := CarryOut(a.h2, b.h2, c2);
    var c4 := CarryOut(a.h3, b.h3, c3);
    var c5 := CarryOut(a.h4, b.h4, c4);
    var c6 := CarryOut(a.h5, b.h5, c5);
    var c7 := CarryOut(a.h6, b.h6, c6);
    var c8 := CarryOut(a.h7, b.h7, c7);
    AddSteps(a, b, s, c1, c2, c3, c4, c5, c6, c7, c8);
    Wrapped(Num(a) + Num(b), Num(s), Bit01(c8));
  }

  lemma AddSteps(a: Hex, b: Hex, s: Hex, c1: bool, c2: bool, c3: bool, c4: bool, c5: bool, c6: bool, c7: bool, c8: bool)
    requires c1 == CarryOut(a.h0, b.h0, false) && c2 == CarryOut(a.h1, b.h1, c1) && c3 == CarryOut(a.h2, b.h2, c2)
    requires c4 == CarryOut(a.h3, b.h3, c3) && c5 == CarryOut(a.h4, b.h4, c4) && c6 == CarryOut(a.h5, b.h5, c5)
    requires c7 == CarryOut(a.h6, b.h6, c6) && c8 == CarryOut(a.h7, b.h7, c7)
    requires s == Hex(AddDigit(a.h7, b.h7, c7), AddDigit(a.h6, b.h6, c6), AddDigit(a.h5, b.h5, c5), AddDigit(a.h4, b.h4, c4),
                      AddDigit(a.h3, b.h3, c3), AddDigit(a.h2, b.h2, c2), AddDigit(a.h1, b.h1, c1), AddDigit(a.h0, b.h0, false))
    ensures Num(a) + Num(b) == Num(s) + 0x1_0000_0000 * Bit01(c8)
  {
    AddFour(a.h3, a.h2, a.h1, a.h0, b.h3, b.h2, b.h1, b.h0, s.h3, s.h2, s.h1, s.h0, false, c1, c2, c3, c4);
    AddFour(a.h7, a.h6, a.h5, a.h4, b.h7, b.h6, b.h5, b.h4, s.h7, s.h6, s.h5, s.h4, c4, c5, c6, c7, c8);
    SumOfDigits(a, b, s, Bit01(c1), Bit01(c2), Bit01(c3), Bit01(c4), Bit01(c5), Bit01(c6), Bit01(c7), Bit01(c8));
  }

  lemma AddFour(x3: Digit, x2: Digit, x1: Digit, x0: Digit, y3: Digit, y2: Digit, y1: Digit, y0: Digit,
                s3: Digit, s2: Digit, s1: Digit, s0: Digit, c0: bool, c1: bool, c2: bool, c3: bool, c4: bool)
    requires c1 == CarryOut(x0, y0, c0) && c2 == CarryOut(x1, y1, c1) && c3 == CarryOut(x2, y2, c2) && c4 == CarryOut(x3, y3, c3)
    requires s0 == AddDigit(x0, y0, c0) && s1 == AddDigit(x1, y1, c1) && s2 == AddDigit(x2, y2, c2) && s3 == AddDigit(x3, y3, c3)
    ensures Val(x0) + Val(y0) + Bit01(c0) == Val(s0) + 16 * Bit01(c1) && Val(x1) + Val(y1) + Bit01(c1) == Val(s1) + 16 * Bit01(c2)
    ensures Val(x2) + Val(y2) + Bit01(c2) == Val(s2) + 16 * Bit01(c3) && Val(x3) + Val(y3) + Bit01(c3) == Val(s3) + 16 * Bit01(c4)
  {
    AddStep(x0, y0, c0, s0, c1);
    AddStep(x1, y1, c1, s1, c2);
    AddStep(x2, y2, c2, s2, c3);
    AddStep(x3, y3, c3, s3, c4);
  }

  lemma AddStep(x: Digit, y: Digit, c: bool, s: Digit, d: bool)
    requires s == AddDigit(x, y, c) && d == CarryOut(x, y, c)
    ensures Val(x) + Val(y) + Bit01(c) == Val(s) + 16 * Bit01(d)
  {
    AddDigitIs(x, y, c);
  }

  lemma SumOfDigits(a: Hex, b: Hex, s: Hex, c1: nat, c2: nat, c3: nat, c4: nat, c5: nat, c6: nat, c7: nat, c8: nat)
    requires Val(a.h0) + Val(b.h0) == Val(s.h0) + 16 * c1 && Val(a.h1) + Val(b.h1) + c1 == Val(s.h1) + 16 * c2
    requires Val(a.h2) + Val(b.h2) + c2 == Val(s.h2) + 16 * c3 && Val(a.h3) + Val(b.h3) + c3 == Val(s.h3) + 16 * c4
    requires Val(a.h4) + Val(b.h4) + c4 == Val(s.h4) + 16 * c5 && Val(a.h5) + Val(b.h5) + c5 == Val(s.h5) + 16 * c6
    requires Val(a.h6) + Val(b.h6) + c6 == Val(s.h6) + 16 * c7 && Val(a.h7) + Val(b.h7) + c7 == Val(s.h7) + 16 * c8
    ensures Num(a) + Num(b) == Num(s) + 0x1_0000_0000 * c8
  {
    HornerIs(a, Val(a.h7), Val(a.h6), Val(a.h5), Val(a.h4), Val(a.h3), Val(a.h2), Val(a.h1), Val(a.h0));
    HornerIs(b, Val(b.h7), Val(b.h6), Val(b.h5), Val(b.h4), Val(b.h3), Val(b.h2), Val(b.h1), Val(b.h0));
    HornerIs(s, Val(s.h7), Val(s.h6), Val(s.h5), Val(s.h4), Val(s.h3), Val(s.h2), Val(s.h1), Val(s.h0));
  }

  lemma HornerIs(w: Hex, d7: nat, d6: nat, d5: nat, d4: nat, d3: nat, d2: nat, d1: nat, d0: nat)
    requires d7 == Val(w.h7) && d6 == Val(w.h6) && d5 == Val(w.h5) && d4 == Val(w.h4)
    requires d3 == Val(w.h3) && d2 == Val(w.h2) && d1 == Val(w.h1) && d0 == Val(w.h0)
    ensures Num(w) == d0 + 0x10 * d1 + 0x100 * d2 + 0x1000 * d3 + 0x1_0000 * d4 + 0x10_0000 * d5 + 0x100_0000 * d6 + 0x1000_0000 * d7
  {
  }

  lemma Wrapped(x: nat, s: word, c: nat)
    requires x == s + 0x1_0000_0000 * c
    ensures U32(x) == s
  {
  }

  // ----- Rotations -----

  /** To the left by whole digits. */
  function Turn16(w: Hex): Hex
  {
    Hex(w.h3, w.h2, w.h1, w.h0, w.h7, w.h6, w.h5, w.h4)
  }

  function Turn12(w: Hex): Hex
  {
    Hex(w.h4, w.h3, w.h2, w.h1, w.h0, w.h7, w.h6, w.h5)
  }

  function Turn8(w: Hex): Hex
  {
    Hex(w.h5, w.h4, w.h3, w.h2, w.h1, w.h0, w.h7, w.h6)
  }

  /** Two digits to the left and a bit to the right. */
  function Down(above: Digit, x: Digit): Digit
  {
    Digit(above.b0, x.b3, x.b2, x.b1)
  }

  function Turn7(w: Hex): Hex
  {
    Hex(Down(w.h6, w.h5), Down(w.h5, w.h4), Down(w.h4, w.h3), Down(w.h3, w.h2),
        Down(w.h2, w.h1), Down(w.h1, w.h0), Down(w.h0, w.h7), Down(w.h7, w.h6))
  }

  /** A word rotated: its high part comes in below its low part. */
  lemma RotlParts(x: word, n: nat, p: nat, m: nat, q: nat, r: nat)
    requires 0 < n < 32 && p == Pow2(32 - n) && m == Pow2(n) && x == q * p + r && r < p
    ensures Rotl(x, n) == r * m + q
  {
    RotlIsRotr(x, n);
    var q', r', p', m' := RotrAt(x, 32 - n);
    DivModUnique(x, p, q, r);
    DivModUnique(x, p, q', r');
  }

  lemma TurnedAs(x: word, n: nat, p: nat, m: nat, q: nat, r: nat, y: word)
    requires (n == 16 && p == 0x1_0000 && m == 0x1_0000) || (n == 12 && p == 0x10_0000 && m == 0x1000)
          || (n == 8 && p == 0x100_0000 && m == 0x100) || (n == 7 && p == 0x200_0000 && m == 0x80)
    requires x == q * p + r && r < p && y == r * m + q
    ensures Rotl(x, n) == y
  {
    Pow2Values();
    assert Pow2(7) == 0x80;
    Pow2Add(20, 5);
    RotlParts(x, n, p, m, q, r);
  }

  lemma Turn16Is(w: Hex)
    ensures Rotl(Num(w), 16) == Num(Turn16(w))
  {
    TurnedAs(Num(w), 16, 0x1_0000, 0x1_0000, 0x100 * Pair(w.h7, w.h6) + Pair(w.h5, w.h4), 0x100 * Pair(w.h3, w.h2) + Pair(w.h1, w.h0), Num(Turn16(w)));
  }

  lemma Turn12Is(w: Hex)
    ensures Rotl(Num(w), 12) == Num(Turn12(w))
  {
    var q, r := 0x100 * Val(w.h7) + 0x10 * Val(w.h6) + Val(w.h5), 0x1_0000 * Val(w.h4) + 0x100 * Pair(w.h3, w.h2) + Pair(w.h1, w.h0);
    TurnedAs(Num(w), 12, 0x10_0000, 0x1000, q, r, Num(Turn12(w)));
  }

  lemma Turn8Is(w: Hex)
    ensures Rotl(Num(w), 8) == Num(Turn8(w))
  {
    var q, r := Pair(w.h7, w.h6), 0x1_0000 * Pair(w.h5, w.h4) + 0x100 * Pair(w.h3, w.h2) + Pair(w.h1, w.h0);
    TurnedAs(Num(w), 8, 0x100_0000, 0x100, q, r, Num(Turn8(w)));
  }

  lemma Turn7Is(w: Hex)
    ensures Rotl(Num(w), 7) == Num(Turn7(w))
  {
    var t := Turn7(w);
    var q, r := 8 * Val(w.h7) + (Val(w.h6) - Bit01(w.h6.b0)) / 2, 0x100_0000 * Bit01(w.h6.b0) + 0x1_0000 * Pair(w.h5, w.h4) + 0x100 * Pair(w.h3, w.h2) + Pair(w.h1, w.h0);
    TurnedSeven(w, t, q, r);
    TurnedAs(Num(w), 7, 0x200_0000, 0x80, q, r, Num(t));
  }

  lemma DownIs(above: Digit, x: Digit)
    ensures 2 * Val(Down(above, x)) + Bit01(x.b0) == 16 * Bit01(above.b0) + Val(x)
  {
  }

  lemma TurnedSeven(w: Hex, t: Hex, q: nat, r: nat)
    requires t == Turn7(w) && 2 * q + Bit01(w.h6.b0) == 16 * Val(w.h7) + Val(w.h6)
    requires r == 0x100_0000 * Bit01(w.h6.b0) + 0x1_0000 * Pair(w.h5, w.h4) + 0x100 * Pair(w.h3, w.h2) + Pair(w.h1, w.h0)
    ensures Num(w) == q * 0x200_0000 + r && Num(t) == r * 0x80 + q && r < 0x200_0000
  {
    TurnedDigits(w, t);
    SevenSum(Val(w.h7), Val(w.h6), Val(w.h5), Val(w.h4), Val(w.h3), Val(w.h2), Val(w.h1), Val(w.h0),
             Bit01(w.h7.b0), Bit01(w.h6.b0), Bit01(w.h5.b0), Bit01(w.h4.b0), Bit01(w.h3.b0), Bit01(w.h2.b0), Bit01(w.h1.b0), Bit01(w.h0.b0),
             Val(t.h7), Val(t.h6), Val(t.h5), Val(t.h4), Val(t.h3), Val(t.h2), Val(t.h1), Val(t.h0), q, r);
    HornerIs(w, Val(w.h7), Val(w.h6), Val(w.h5), Val(w.h4), Val(w.h3), Val(w.h2), Val(w.h1), Val(w.h0));
    HornerIs(t, Val(t.h7), Val(t.h6), Val(t.h5), Val(t.h4), Val(t.h3), Val(t.h2), Val(t.h1), Val(t.h0));
  }

  lemma TurnedDigits(w: Hex, t: Hex)
    requires t == Turn7(w)
    ensures 2 * Val(t.h7) + Bit01(w.h5.b0) == 16 * Bit01(w.h6.b0) + Val(w.h5) && 2 * Val(t.h6) + Bit01(w.h4.b0) == 16 * Bit01(w.h5.b0) + Val(w.h4)
    ensures 2 * Val(t.h5) + Bit01(w.h3.b0) == 16 * Bit01(w.h4.b0) + Val(w.h3) && 2 * Val(t.h4) + Bit01(w.h2.b0) == 16 * Bit01(w.h3.b0) + Val(w.h2)
    ensures 2 * Val(t.h3) + Bit01(w.h1.b0) == 16 * Bit01(w.h2.b0) + Val(w.h1) && 2 * Val(t.h2) + Bit01(w.h0.b0) == 16 * Bit01(w.h1.b0) + Val(w.h0)
    ensures 2 * Val(t.h1) + Bit01(w.h7.b0) == 16 * Bit01(w.h0.b0) + Val(w.h7) && 2 * Val(t.h0) + Bit01(w.h6.b0) == 16 * Bit01(w.h7.b0) + Val(w.h6)
  {
    DownIs(w.h6, w.h5);
    DownIs(w.h5, w.h4);
    DownIs(w.h4, w.h3);
    DownIs(w.h3, w.h2);
    DownIs(w.h2, w.h1);
    DownIs(w.h1, w.h0);
    DownIs(w.h0, w.h7);
    DownIs(w.h7, w.h6);
  }

  lemma SevenSum(d7: nat, d6: nat, d5: nat, d4: nat, d3: nat, d2: nat, d1: nat, d0: nat,
                 c7: nat, c6: nat, c5: nat, c4: nat, c3: nat, c2: nat, c1: nat, c0: nat,
                 e7: nat, e6: nat, e5: nat, e4: nat, e3: nat, e2: nat, e1: nat, e0: nat, q: nat, r: nat)
    requires 2 * e7 + c5 == 16 * c6 + d5 && 2 * e6 + c4 == 16 * c5 + d4 && 2 * e5 + c3 == 16 * c4 + d3 && 2 * e4 + c2 == 16 * c3 + d2
    requires 2 * e3 + c1 == 16 * c2 + d1 && 2 * e2 + c0 == 16 * c1 + d0 && 2 * e1 + c7 == 16 * c0 + d7 && 2 * e0 + c6 == 16 * c7 + d6
    requires 2 * q + c6 == 16 * d7 + d6
    requires r == 0x100_0000 * c6 + d0 + 0x10 * d1 + 0x100 * d2 + 0x1000 * d3 + 0x1_0000 * d4 + 0x10_0000 * d5
    ensures e0 + 0x10 * e1 + 0x100 * e2 + 0x1000 * e3 + 0x1_0000 * e4 + 0x10_0000 * e5 + 0x100_0000 * e6 + 0x1000_0000 * e7 == r * 0x80 + q
    ensures d0 + 0x10 * d1 + 0x100 * d2 + 0x1000 * d3 + 0x1_0000 * d4 + 0x10_0000 * d5 + 0x100_0000 * d6 + 0x1000_0000 * d7 == q * 0x200_0000 + r
  {
  }
}
