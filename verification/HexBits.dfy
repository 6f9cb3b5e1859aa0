/** The functions of SHA-256 (FIPS 180-4, section 4.1.2) on words that are given by their digits. */
module HexBits {
  import opened Bits
  import opened HexWords
  import opened Sha256

  // ----- To the right -----

  /** By one bit, and by one digit, round and round. */
  function Right1(w: Hex): Hex
  {
    Hex(Down(w.h0, w.h7), Down(w.h7, w.h6), Down(w.h6, w.h5), Down(w.h5, w.h4),
        Down(w.h4, w.h3), Down(w.h3, w.h2), Down(w.h2, w.h1), Down(w.h1, w.h0))
  }

  function Right4(w: Hex): Hex
  {
    Hex(w.h0, w.h7, w.h6, w.h5, w.h4, w.h3, w.h2, w.h1)
  }

  lemma Right1Is(w: Hex)
    ensures Rotr1(Num(w)) == Num(Right1(w))
  {
    var t := Right1(w);
    DownIs(w.h0, w.h7);
    DownIs(w.h7, w.h6);
    DownIs(w.h6, w.h5);
    DownIs(w.h5, w.h4);
    DownIs(w.h4, w.h3);
    DownIs(w.h3, w.h2);
    DownIs(w.h2, w.h1);
    DownIs(w.h1, w.h0);
    HornerIs(w, Val(w.h7), Val(w.h6), Val(w.h5), Val(w.h4), Val(w.h3), Val(w.h2), Val(w.h1), Val(w.h0));
    HornerIs(t, Val(t.h7), Val(t.h6), Val(t.h5), Val(t.h4), Val(t.h3), Val(t.h2), Val(t.h1), Val(t.h0));
    Halved(Num(w), Num(t), Bit01(w.h0.b0));
  }

  lemma Halved(x: word, y: word, b: nat)
    requires b <= 1 && 2 * y + b == x + 0x1_0000_0000 * b
    ensures Rotr1(x) == y
  {
  }

  lemma FourOnes(w: Hex)
    ensures Right1(Right1(Right1(Right1(w)))) == Right4(w)
  {
  }

  /** One bit further, and four. */
  lemma {:induction false} Further(x: word, n: nat, v: Hex)
    requires Rotr(x, n) == Num(v)
    ensures Rotr(x, n + 1) == Num(Right1(v))
  {
    Right1Is(v);
  }

  lemma {:induction false} FourFurther(x: word, n: nat, v: Hex, m: nat)
    requires Rotr(x, n) == Num(v) && m == n + 4
    ensures Rotr(x, m) == Num(Right4(v))
  {
    Further(x, n, v);
    Further(x, n + 1, Right1(v));
    Further(x, n + 2, Right1(Right1(v)));
    Further(x, n + 3, Right1(Right1(Right1(v))));
    FourOnes(v);
  }

  function Fours(w: Hex, k: nat): Hex
  {
    if k == 0 then w else Right4(Fours(w, k - 1))
  }

  function Ones(w: Hex, j: nat): Hex
  {
    if j == 0 then w else Right1(Ones(w, j - 1))
  }

  lemma {:induction false} FoursIs(w: Hex, k: nat, n: nat)
    requires n == 4 * k
    ensures Rotr(Num(w), n) == Num(Fours(w, k))
    decreases k
  {
    if k > 0 {
      FoursIs(w, k - 1, n - 4);
      FoursStep(Num(w), w, k, n);
    } else {
      NotTurned(Num(w), n);
    }
  }

  lemma {:induction false} NotTurned(x: word, n: nat)
    requires n == 0
    ensures Rotr(x, n) == x
  {
  }

  lemma {:induction false} FoursStep(x: word, w: Hex, k: nat, n: nat)
    requires k > 0 && n >= 4 && Rotr(x, n - 4) == Num(Fours(w, k - 1))
    ensures Rotr(x, n) == Num(Fours(w, k))
  {
    FourFurther(x, n - 4, Fours(w, k - 1), n);
  }

  lemma {:induction false} RightIs(w: Hex, k: nat, j: nat, n: nat)
    requires n == 4 * k + j
    ensures Rotr(Num(w), n) == Num(Ones(Fours(w, k), j))
    decreases j
  {
    if j == 0 {
      FoursIs(w, k, n);
    } else {
      RightIs(w, k, j - 1, n - 1);
      Further(Num(w), n - 1, Ones(Fours(w, k), j - 1));
    }
  }

  /** The same without those that fall out. */
  function Shift1(w: Hex): Hex
  {
    Right1(w).(h7 := Down(D0, w.h7))
  }

  function Shift4(w: Hex): Hex
  {
    Right4(w).(h7 := D0)
  }

  lemma Shift1Is(w: Hex)
    ensures Num(w) / 2 == Num(Shift1(w))
  {
    var t := Shift1(w);
    DownIs(D0, w.h7);
    DownIs(w.h7, w.h6);
    DownIs(w.h6, w.h5);
    DownIs(w.h5, w.h4);
    DownIs(w.h4, w.h3);
    DownIs(w.h3, w.h2);
    DownIs(w.h2, w.h1);
    DownIs(w.h1, w.h0);
    HornerIs(w, Val(w.h7), Val(w.h6), Val(w.h5), Val(w.h4), Val(w.h3), Val(w.h2), Val(w.h1), Val(w.h0));
    HornerIs(t, Val(t.h7), Val(t.h6), Val(t.h5), Val(t.h4), Val(t.h3), Val(t.h2), Val(t.h1), Val(t.h0));
    assert Num(w) == 2 * Num(t) + Bit01(w.h0.b0);
  }

  lemma Shift4Is(w: Hex)
    ensures Num(w) / 16 == Num(Shift4(w))
  {
    var t := Shift4(w);
    HornerIs(w, Val(w.h7), Val(w.h6), Val(w.h5), Val(w.h4), Val(w.h3), Val(w.h2), Val(w.h1), Val(w.h0));
    HornerIs(t, Val(t.h7), Val(t.h6), Val(t.h5), Val(t.h4), Val(t.h3), Val(t.h2), Val(t.h1), Val(t.h0));
    assert Num(w) == 16 * Num(t) + Val(w.h0);
  }

  lemma Quotients(x: nat)
    ensures x / 8 == x / 2 / 2 / 2 && x / 1024 == x / 16 / 16 / 2 / 2
  {
  }

  lemma Shift3Is(w: Hex)
    ensures Num(w) / 8 == Num(Shift1(Shift1(Shift1(w))))
  {
    Shift1Is(w);
    Shift1Is(Shift1(w));
    Shift1Is(Shift1(Shift1(w)));
    Quotients(Num(w));
  }

  lemma Shift10Is(w: Hex)
    ensures Num(w) / 1024 == Num(Shift1(Shift1(Shift4(Shift4(w)))))
  {
    Shift4Is(w);
    Shift4Is(Shift4(w));
    Shift1Is(Shift4(Shift4(w)));
    Shift1Is(Shift1(Shift4(Shift4(w))));
    Quotients(Num(w));
  }

  // ----- Sums of bits -----

  function Xor3Digit(x: Digit, y: Digit, z: Digit): Digit
  {
    Digit(x.b3 != (y.b3 != z.b3), x.b2 != (y.b2 != z.b2), x.b1 != (y.b1 != z.b1), x.b0 != (y.b0 != z.b0))
  }

  function Xor3Hex(a: Hex, b: Hex, c: Hex): Hex
  {
    Hex(Xor3Digit(a.h7, b.h7, c.h7), Xor3Digit(a.h6, b.h6, c.h6), Xor3Digit(a.h5, b.h5, c.h5), Xor3Digit(a.h4, b.h4, c.h4),
        Xor3Digit(a.h3, b.h3, c.h3), Xor3Digit(a.h2, b.h2, c.h2), Xor3Digit(a.h1, b.h1, c.h1), Xor3Digit(a.h0, b.h0, c.h0))
  }

  lemma Xor3DigitIs(x: Digit, y: Digit, z: Digit)
    ensures Xor3Digit(x, y, z) == XorDigit(XorDigit(x, y), z)
  {
  }

  lemma Xor3Is(a: Hex, b: Hex, c: Hex)
    ensures Xor3(Num(a), Num(b), Num(c)) == Num(Xor3Hex(a, b, c))
  {
    XorIs(a, b);
    XorIs(XorHex(a, b), c);
    Xor3DigitIs(a.h7, b.h7, c.h7);
    Xor3DigitIs(a.h6, b.h6, c.h6);
    Xor3DigitIs(a.h5, b.h5, c.h5);
    Xor3DigitIs(a.h4, b.h4, c.h4);
    Xor3DigitIs(a.h3, b.h3, c.h3);
    Xor3DigitIs(a.h2, b.h2, c.h2);
    Xor3DigitIs(a.h1, b.h1, c.h1);
    Xor3DigitIs(a.h0, b.h0, c.h0);
  }

  // ----- Choice and majority -----

  function AndDigit(x: Digit, y: Digit): Digit
  {
    Digit(x.b3 && y.b3, x.b2 && y.b2, x.b1 && y.b1, x.b0 && y.b0)
  }

  function AndHex(a: Hex, b: Hex): Hex
  {
    Hex(AndDigit(a.h7, b.h7), AndDigit(a.h6, b.h6), AndDigit(a.h5, b.h5), AndDigit(a.h4, b.h4),
        AndDigit(a.h3, b.h3), AndDigit(a.h2, b.h2), AndDigit(a.h1, b.h1), AndDigit(a.h0, b.h0))
  }

  lemma {:induction false} AndBit(p: nat, q: nat, x: bool, y: bool)
    ensures And(Push(p, x), Push(q, y)) == Push(And(p, q), x && y)
  {
    AndCons(p, Bit01(x), q, Bit01(y));
  }

  lemma {:induction false} AndTwo(p: nat, q: nat, x1: bool, x0: bool, y1: bool, y0: bool)
    ensures And(Two(p, x1, x0), Two(q, y1, y0)) == Two(And(p, q), x1 && y1, x0 && y0)
  {
    AndBit(p, q, x1, y1);
    AndBit(Push(p, x1), Push(q, y1), x0, y0);
  }

  lemma {:induction false} AndFour(p: nat, q: nat, x3: bool, x2: bool, x1: bool, x0: bool, y3: bool, y2: bool, y1: bool, y0: bool)
    ensures And(Four(p, x3, x2, x1, x0), Four(q, y3, y2, y1, y0)) == Four(And(p, q), x3 && y3, x2 && y2, x1 && y1, x0 && y0)
  {
    AndTwo(p, q, x3, x2, y3, y2);
    AndTwo(Two(p, x3, x2), Two(q, y3, y2), x1, x0, y1, y0);
    FourIs(p, x3, x2, x1, x0);
    FourIs(q, y3, y2, y1, y0);
    FourIs(And(p, q), x3 && y3, x2 && y2, x1 && y1, x0 && y0);
  }

  lemma {:induction false} AndMore(p: nat, q: nat, x: Digit, y: Digit)
    ensures And(Cat(p, x), Cat(q, y)) == Cat(And(p, q), AndDigit(x, y))
  {
    AndFour(p, q, x.b3, x.b2, x.b1, x.b0, y.b3, y.b2, y.b1, y.b0);
    CatIs(p, x);
    CatIs(q, y);
    CatIs(And(p, q), AndDigit(x, y));
  }

  lemma {:induction false} AndIs(a: Hex, b: Hex)
    ensures AndWord(Num(a), Num(b)) == Num(AndHex(a, b))
  {
    NumIs(a);
    NumIs(b);
    NumIs(AndHex(a, b));
    var p7, q7 := Cat(0, a.h7), Cat(0, b.h7);
    var p6, q6 := Cat(p7, a.h6), Cat(q7, b.h6);
    var p5, q5 := Cat(p6, a.h5), Cat(q6, b.h5);
    var p4, q4 := Cat(p5, a.h4), Cat(q5, b.h4);
    var p3, q3 := Cat(p4, a.h3), Cat(q4, b.h3);
    var p2, q2 := Cat(p3, a.h2), Cat(q3, b.h2);
    var p1, q1 := Cat(p2, a.h1), Cat(q2, b.h1);
    AndMore(0, 0, a.h7, b.h7);
    AndMore(p7, q7, a.h6, b.h6);
    AndMore(p6, q6, a.h5, b.h5);
    AndMore(p5, q5, a.h4, b.h4);
    AndMore(p4, q4, a.h3, b.h3);
    AndMore(p3, q3, a.h2, b.h2);
    AndMore(p2, q2, a.h1, b.h1);
    AndMore(p1, q1, a.h0, b.h0);
  }

  function NotDigit(x: Digit): Digit
  {
    Digit(!x.b3, !x.b2, !x.b1, !x.b0)
  }

  function NotHex(a: Hex): Hex
  {
    Hex(NotDigit(a.h7), NotDigit(a.h6), NotDigit(a.h5), NotDigit(a.h4), NotDigit(a.h3), NotDigit(a.h2), NotDigit(a.h1), NotDigit(a.h0))
  }

  lemma NotDigitIs(x: Digit)
    ensures Val(NotDigit(x)) == 15 - Val(x)
  {
  }

  lemma NotIs(a: Hex)
    ensures NotWord(Num(a)) == Num(NotHex(a))
  {
    NotDigitIs(a.h7);
    NotDigitIs(a.h6);
    NotDigitIs(a.h5);
    NotDigitIs(a.h4);
    NotDigitIs(a.h3);
    NotDigitIs(a.h2);
    NotDigitIs(a.h1);
    NotDigitIs(a.h0);
  }

  /** The bits of y where x has ones, and those of z where it has zeros. */
  function ChDigit(x: Digit, y: Digit, z: Digit): Digit
  {
    Digit(if x.b3 then y.b3 else z.b3, if x.b2 then y.b2 else z.b2, if x.b1 then y.b1 else z.b1, if x.b0 then y.b0 else z.b0)
  }

  function ChHex(a: Hex, b: Hex, c: Hex): Hex
  {
    Hex(ChDigit(a.h7, b.h7, c.h7), ChDigit(a.h6, b.h6, c.h6), ChDigit(a.h5, b.h5, c.h5), ChDigit(a.h4, b.h4, c.h4),
        ChDigit(a.h3, b.h3, c.h3), ChDigit(a.h2, b.h2, c.h2), ChDigit(a.h1, b.h1, c.h1), ChDigit(a.h0, b.h0, c.h0))
  }

  lemma ChDigitIs(x: Digit, y: Digit, z: Digit)
    ensures ChDigit(x, y, z) == XorDigit(AndDigit(x, y), AndDigit(NotDigit(x), z))
  {
  }

  lemma ChIs(a: Hex, b: Hex, c: Hex)
    ensures Ch(Num(a), Num(b), Num(c)) == Num(ChHex(a, b, c))
  {
    AndIs(a, b);
    NotIs(a);
    AndIs(NotHex(a), c);
    XorIs(AndHex(a, b), AndHex(NotHex(a), c));
    ChDigitIs(a.h7, b.h7, c.h7);
    ChDigitIs(a.h6, b.h6, c.h6);
    ChDigitIs(a.h5, b.h5, c.h5);
    ChDigitIs(a.h4, b.h4, c.h4);
    ChDigitIs(a.h3, b.h3, c.h3);
    ChDigitIs(a.h2, b.h2, c.h2);
    ChDigitIs(a.h1, b.h1, c.h1);
    ChDigitIs(a.h0, b.h0, c.h0);
  }

  /** The bit that two of the three have. */
  function MajDigit(x: Digit, y: Digit, z: Digit): Digit
  {
    Digit(Carry(x.b3, y.b3, z.b3), Carry(x.b2, y.b2, z.b2), Carry(x.b1, y.b1, z.b1), Carry(x.b0, y.b0, z.b0))
  }

  function MajHex(a: Hex, b: Hex, c: Hex): Hex
  {
    Hex(MajDigit(a.h7, b.h7, c.h7), MajDigit(a.h6, b.h6, c.h6), MajDigit(a.h5, b.h5, c.h5), MajDigit(a.h4, b.h4, c.h4),
        MajDigit(a.h3, b.h3, c.h3), MajDigit(a.h2, b.h2, c.h2), MajDigit(a.h1, b.h1, c.h1), MajDigit(a.h0, b.h0, c.h0))
  }

  lemma MajDigitIs(x: Digit, y: Digit, z: Digit)
    ensures MajDigit(x, y, z) == Xor3Digit(AndDigit(x, y), AndDigit(x, z), AndDigit(y, z))
  {
  }

  lemma MajIs(a: Hex, b: Hex, c: Hex)
    ensures Maj(Num(a), Num(b), Num(c)) == Num(MajHex(a, b, c))
  {
    AndIs(a, b);
    AndIs(a, c);
    AndIs(b, c);
    Xor3Is(AndHex(a, b), AndHex(a, c), AndHex(b, c));
    MajDigitIs(a.h7, b.h7, c.h7);
    MajDigitIs(a.h6, b.h6, c.h6);
    MajDigitIs(a.h5, b.h5, c.h5);
    MajDigitIs(a.h4, b.h4, c.h4);
    MajDigitIs(a.h3, b.h3, c.h3);
    MajDigitIs(a.h2, b.h2, c.h2);
    MajDigitIs(a.h1, b.h1, c.h1);
    MajDigitIs(a.h0, b.h0, c.h0);
  }

  // ----- The sigma functions -----

  /** Two and three bits to the right, those of the digit above coming in. */
  function Down2(above: Digit, x: Digit): Digit
  {
    Digit(above.b1, above.b0, x.b3, x.b2)
  }

  function Down3(above: Digit, x: Digit): Digit
  {
    Digit(above.b2, above.b1, above.b0, x.b3)
  }

  /** The rotations and shifts there are, each digit from the two it is made of. */
  function Right2(w: Hex): Hex
  {
    Hex(Down2(w.h0, w.h7), Down2(w.h7, w.h6), Down2(w.h6, w.h5), Down2(w.h5, w.h4),
        Down2(w.h4, w.h3), Down2(w.h3, w.h2), Down2(w.h2, w.h1), Down2(w.h1, w.h0))
  }

  function Right6(w: Hex): Hex
  {
    Hex(Down2(w.h1, w.h0), Down2(w.h0, w.h7), Down2(w.h7, w.h6), Down2(w.h6, w.h5),
        Down2(w.h5, w.h4), Down2(w.h4, w.h3), Down2(w.h3, w.h2), Down2(w.h2, w.h1))
  }

  function Right7(w: Hex): Hex
  {
    Hex(Down3(w.h1, w.h0), Down3(w.h0, w.h7), Down3(w.h7, w.h6), Down3(w.h6, w.h5),
        Down3(w.h5, w.h4), Down3(w.h4, w.h3), Down3(w.h3, w.h2), Down3(w.h2, w.h1))
  }

  function Right11(w: Hex): Hex
  {
    Hex(Down3(w.h2, w.h1), Down3(w.h1, w.h0), Down3(w.h0, w.h7), Down3(w.h7, w.h6),
        Down3(w.h6, w.h5), Down3(w.h5, w.h4), Down3(w.h4, w.h3), Down3(w.h3, w.h2))
  }

  function Right13(w: Hex): Hex
  {
    Hex(Down(w.h3, w.h2), Down(w.h2, w.h1), Down(w.h1, w.h0), Down(w.h0, w.h7),
        Down(w.h7, w.h6), Down(w.h6, w.h5), Down(w.h5, w.h4), Down(w.h4, w.h3))
  }

  function Right17(w: Hex): Hex
  {
    Hex(Down(w.h4, w.h3), Down(w.h3, w.h2), Down(w.h2, w.h1), Down(w.h1, w.h0),
        Down(w.h0, w.h7), Down(w.h7, w.h6), Down(w.h6, w.h5), Down(w.h5, w.h4))
  }

  function Right18(w: Hex): Hex
  {
    Hex(Down2(w.h4, w.h3), Down2(w.h3, w.h2), Down2(w.h2, w.h1), Down2(w.h1, w.h0),
        Down2(w.h0, w.h7), Down2(w.h7, w.h6), Down2(w.h6, w.h5), Down2(w.h5, w.h4))
  }

  function Right19(w: Hex): Hex
  {
    Hex(Down3(w.h4, w.h3), Down3(w.h3, w.h2), Down3(w.h2, w.h1), Down3(w.h1, w.h0),
        Down3(w.h0, w.h7), Down3(w.h7, w.h6), Down3(w.h6, w.h5), Down3(w.h5, w.h4))
  }

  function Right22(w: Hex): Hex
  {
    Hex(Down2(w.h5, w.h4), Down2(w.h4, w.h3), Down2(w.h3, w.h2), Down2(w.h2, w.h1),
        Down2(w.h1, w.h0), Down2(w.h0, w.h7), Down2(w.h7, w.h6), Down2(w.h6, w.h5))
  }

  function Right25(w: Hex): Hex
  {
    Hex(Down(w.h6, w.h5), Down(w.h5, w.h4), Down(w.h4, w.h3), Down(w.h3, w.h2),
        Down(w.h2, w.h1), Down(w.h1, w.h0), Down(w.h0, w.h7), Down(w.h7, w.h6))
  }

  function Shift3(w: Hex): Hex
  {
    Hex(Down3(D0, w.h7), Down3(w.h7, w.h6), Down3(w.h6, w.h5), Down3(w.h5, w.h4),
        Down3(w.h4, w.h3), Down3(w.h3, w.h2), Down3(w.h2, w.h1), Down3(w.h1, w.h0))
  }

  function Shift10(w: Hex): Hex
  {
    Hex(D0, D0, Down2(D0, w.h7), Down2(w.h7, w.h6),
        Down2(w.h6, w.h5), Down2(w.h5, w.h4), Down2(w.h4, w.h3), Down2(w.h3, w.h2))
  }

  function Right3(w: Hex): Hex
  {
    Hex(Down3(w.h0, w.h7), Down3(w.h7, w.h6), Down3(w.h6, w.h5), Down3(w.h5, w.h4),
        Down3(w.h4, w.h3), Down3(w.h3, w.h2), Down3(w.h2, w.h1), Down3(w.h1, w.h0))
  }

  function Shift2(w: Hex): Hex
  {
    Hex(Down2(D0, w.h7), Down2(w.h7, w.h6), Down2(w.h6, w.h5), Down2(w.h5, w.h4),
        Down2(w.h4, w.h3), Down2(w.h3, w.h2), Down2(w.h2, w.h1), Down2(w.h1, w.h0))
  }

  function BigSigma0Hex(w: Hex): Hex { Xor3Hex(Right2(w), Right13(w), Right22(w)) }
  function BigSigma1Hex(w: Hex): Hex { Xor3Hex(Right6(w), Right11(w), Right25(w)) }
  function SmallSigma0Hex(w: Hex): Hex { Xor3Hex(Right7(w), Right18(w), Shift3(w)) }
  function SmallSigma1Hex(w: Hex): Hex { Xor3Hex(Right17(w), Right19(w), Shift10(w)) }

  lemma DownTwice(b: Digit, a: Digit, x: Digit)
    ensures Down(Down(b, a), Down(a, x)) == Down2(a, x) && Down(Down2(b, a), Down2(a, x)) == Down3(a, x)
  {
  }

  lemma DownNone()
    ensures Down(D0, D0) == D0 && Down2(D0, D0) == D0 && Down3(D0, D0) == D0
  {
  }

  lemma TwoOnes(w: Hex)
    ensures Right1(Right1(w)) == Right2(w)
  {
    DownTwice(w.h1, w.h0, w.h7);
    DownTwice(w.h0, w.h7, w.h6);
    DownTwice(w.h7, w.h6, w.h5);
    DownTwice(w.h6, w.h5, w.h4);
    DownTwice(w.h5, w.h4, w.h3);
    DownTwice(w.h4, w.h3, w.h2);
    DownTwice(w.h3, w.h2, w.h1);
    DownTwice(w.h2, w.h1, w.h0);
  }

  lemma ThreeOnes(w: Hex)
    ensures Right1(Right2(w)) == Right3(w)
  {
    DownTwice(w.h1, w.h0, w.h7);
    DownTwice(w.h0, w.h7, w.h6);
    DownTwice(w.h7, w.h6, w.h5);
    DownTwice(w.h6, w.h5, w.h4);
    DownTwice(w.h5, w.h4, w.h3);
    DownTwice(w.h4, w.h3, w.h2);
    DownTwice(w.h3, w.h2, w.h1);
    DownTwice(w.h2, w.h1, w.h0);
  }

  lemma TwoShifts(w: Hex)
    ensures Shift1(Shift1(w)) == Shift2(w)
  {
    DownNone();
    DownTwice(D0, D0, w.h7);
    DownTwice(D0, w.h7, w.h6);
    DownTwice(w.h7, w.h6, w.h5);
    DownTwice(w.h6, w.h5, w.h4);
    DownTwice(w.h5, w.h4, w.h3);
    DownTwice(w.h4, w.h3, w.h2);
    DownTwice(w.h3, w.h2, w.h1);
    DownTwice(w.h2, w.h1, w.h0);
  }

  lemma ThreeShifts(w: Hex)
    ensures Shift1(Shift2(w)) == Shift3(w)
  {
    DownNone();
    DownTwice(D0, D0, w.h7);
    DownTwice(D0, w.h7, w.h6);
    DownTwice(w.h7, w.h6, w.h5);
    DownTwice(w.h6, w.h5, w.h4);
    DownTwice(w.h5, w.h4, w.h3);
    DownTwice(w.h4, w.h3, w.h2);
    DownTwice(w.h3, w.h2, w.h1);
    DownTwice(w.h2, w.h1, w.h0);
  }

  lemma {:induction false} OnesAre(w: Hex, j: nat)
    requires j <= 3
    ensures Ones(w, j) == if j == 0 then w else if j == 1 then Right1(w) else if j == 2 then Right1(Right1(w)) else Right1(Right1(Right1(w)))
  {
    if j > 0 {
      OneFewer(w, j);
      if j > 1 {
        OneFewer(w, j - 1);
        if j > 2 {
          OneFewer(w, j - 2);
        }
      }
    }
  }

  lemma {:induction false} OneFewer(w: Hex, j: nat)
    requires j > 0
    ensures Ones(w, j) == Right1(Ones(w, j - 1)) && (j == 1 ==> Ones(w, j - 1) == w)
  {
  }

  lemma {:induction false} NoFours(w: Hex, k: nat)
    requires k == 0
    ensures Fours(w, k) == w
  {
  }

  lemma {:induction false} FourFewer(w: Hex, k: nat)
    requires k > 0
    ensures Fours(w, k) == Right4(Fours(w, k - 1)) && (k == 1 ==> Fours(w, k - 1) == w)
  {
  }

  lemma {:induction false} Fours1(w: Hex, k: nat)
    requires k == 1
    ensures Fours(w, k) == Hex(w.h0, w.h7, w.h6, w.h5, w.h4, w.h3, w.h2, w.h1)
  {
    FourFewer(w, k);
  }

  lemma {:induction false} Fours2(w: Hex, k: nat)
    requires k == 2
    ensures Fours(w, k) == Hex(w.h1, w.h0, w.h7, w.h6, w.h5, w.h4, w.h3, w.h2)
  {
    Fours1(w, k - 1);
    FourFewer(w, k);
  }

  lemma {:induction false} Fours3(w: Hex, k: nat)
    requires k == 3
    ensures Fours(w, k) == Hex(w.h2, w.h1, w.h0, w.h7, w.h6, w.h5, w.h4, w.h3)
  {
    Fours2(w, k - 1);
    FourFewer(w, k);
  }

  lemma {:induction false} Fours4(w: Hex, k: nat)
    requires k == 4
    ensures Fours(w, k) == Hex(w.h3, w.h2, w.h1, w.h0, w.h7, w.h6, w.h5, w.h4)
  {
    Fours3(w, k - 1);
    FourFewer(w, k);
  }

  lemma {:induction false} Fours5(w: Hex, k: nat)
    requires k == 5
    ensures Fours(w, k) == Hex(w.h4, w.h3, w.h2, w.h1, w.h0, w.h7, w.h6, w.h5)
  {
    Fours4(w, k - 1);
    FourFewer(w, k);
  }

  lemma {:induction false} Fours6(w: Hex, k: nat)
    requires k == 6
    ensures Fours(w, k) == Hex(w.h5, w.h4, w.h3, w.h2, w.h1, w.h0, w.h7, w.h6)
  {
    Fours5(w, k - 1);
    FourFewer(w, k);
  }

  lemma {:induction false} Right2Is(w: Hex, n: nat, k: nat, j: nat)
    requires n == 2 && k == 0 && j == 2
    ensures Rotr(Num(w), n) == Num(Right2(w))
  {
    RightIs(w, k, j, n);
    var v := w;
    OnesAre(v, j);
    NoFours(w, k);
    TwoOnes(v);
  }

  lemma {:induction false} Right6Is(w: Hex, n: nat, k: nat, j: nat)
    requires n == 6 && k == 1 && j == 2
    ensures Rotr(Num(w), n) == Num(Right6(w))
  {
    RightIs(w, k, j, n);
    Fours1(w, k);
    var v := Hex(w.h0, w.h7, w.h6, w.h5, w.h4, w.h3, w.h2, w.h1);
    OnesAre(v, j);
    TwoOnes(v);
    assert Right6(w) == Right2(v);
  }

  lemma {:induction false} Right7Is(w: Hex, n: nat, k: nat, j: nat)
    requires n == 7 && k == 1 && j == 3
    ensures Rotr(Num(w), n) == Num(Right7(w))
  {
    RightIs(w, k, j, n);
    Fours1(w, k);
    var v := Hex(w.h0, w.h7, w.h6, w.h5, w.h4, w.h3, w.h2, w.h1);
    OnesAre(v, j);
    TwoOnes(v);
    ThreeOnes(v);
    assert Right7(w) == Right3(v);
  }

  lemma {:induction false} Right11Is(w: Hex, n: nat, k: nat, j: nat)
    requires n == 11 && k == 2 && j == 3
    ensures Rotr(Num(w), n) == Num(Right11(w))
  {
    RightIs(w, k, j, n);
    Fours2(w, k);
    var v := Hex(w.h1, w.h0, w.h7, w.h6, w.h5, w.h4, w.h3, w.h2);
    OnesAre(v, j);
    TwoOnes(v);
    ThreeOnes(v);
    assert Right11(w) == Right3(v);
  }

  lemma {:induction false} Right13Is(w: Hex, n: nat, k: nat, j: nat)
    requires n == 13 && k == 3 && j == 1
    ensures Rotr(Num(w), n) == Num(Right13(w))
  {
    RightIs(w, k, j, n);
    Fours3(w, k);
    var v := Hex(w.h2, w.h1, w.h0, w.h7, w.h6, w.h5, w.h4, w.h3);
    OnesAre(v, j);
    assert Right13(w) == Right1(v);
  }

  lemma {:induction false} Right17Is(w: Hex, n: nat, k: nat, j: nat)
    requires n == 17 && k == 4 && j == 1
    ensures Rotr(Num(w), n) == Num(Right17(w))
  {
    RightIs(w, k, j, n);
    Fours4(w, k);
    var v := Hex(w.h3, w.h2, w.h1, w.h0, w.h7, w.h6, w.h5, w.h4);
    OnesAre(v, j);
    assert Right17(w) == Right1(v);
  }

  lemma {:induction false} Right18Is(w: Hex, n: nat, k: nat, j: nat)
    requires n == 18 && k == 4 && j == 2
    ensures Rotr(Num(w), n) == Num(Right18(w))
  {
    RightIs(w, k, j, n);
    Fours4(w, k);
    var v := Hex(w.h3, w.h2, w.h1, w.h0, w.h7, w.h6, w.h5, w.h4);
    OnesAre(v, j);
    TwoOnes(v);
    assert Right18(w) == Right2(v);
  }

  lemma {:induction false} Right19Is(w: Hex, n: nat, k: nat, j: nat)
    requires n == 19 && k == 4 && j == 3
    ensures Rotr(Num(w), n) == Num(Right19(w))
  {
    RightIs(w, k, j, n);
    Fours4(w, k);
    var v := Hex(w.h3, w.h2, w.h1, w.h0, w.h7, w.h6, w.h5, w.h4);
    OnesAre(v, j);
    TwoOnes(v);
    ThreeOnes(v);
    assert Right19(w) == Right3(v);
  }

  lemma {:induction false} Right22Is(w: Hex, n: nat, k: nat, j: nat)
    requires n == 22 && k == 5 && j == 2
    ensures Rotr(Num(w), n) == Num(Right22(w))
  {
    RightIs(w, k, j, n);
    Fours5(w, k);
    var v := Hex(w.h4, w.h3, w.h2, w.h1, w.h0, w.h7, w.h6, w.h5);
    OnesAre(v, j);
    TwoOnes(v);
    assert Right22(w) == Right2(v);
  }

  lemma {:induction false} Right25Is(w: Hex, n: nat, k: nat, j: nat)
    requires n == 25 && k == 6 && j == 1
    ensures Rotr(Num(w), n) == Num(Right25(w))
  {
    RightIs(w, k, j, n);
    Fours6(w, k);
    var v := Hex(w.h5, w.h4, w.h3, w.h2, w.h1, w.h0, w.h7, w.h6);
    OnesAre(v, j);
    assert Right25(w) == Right1(v);
  }

  lemma Shift3Whole(w: Hex)
    ensures Num(w) / 8 == Num(Shift3(w))
  {
    TwoShifts(w);
    ThreeShifts(w);
    Shift3Is(w);
  }

  lemma Shift10Whole(w: Hex)
    ensures Num(w) / 1024 == Num(Shift10(w))
  {
    Shift10Is(w);
    TwoShifts(Shift4(Shift4(w)));
    DownNone();
  }

  lemma {:induction false} BigSigma0Is(w: Hex)
    ensures BigSigma0(Num(w)) == Num(BigSigma0Hex(w))
  {
    Right2Is(w, 2, 0, 2);
    Right13Is(w, 13, 3, 1);
    Right22Is(w, 22, 5, 2);
    Xor3Is(Right2(w), Right13(w), Right22(w));
  }

  lemma {:induction false} BigSigma1Is(w: Hex)
    ensures BigSigma1(Num(w)) == Num(BigSigma1Hex(w))
  {
    Right6Is(w, 6, 1, 2);
    Right11Is(w, 11, 2, 3);
    Right25Is(w, 25, 6, 1);
    Xor3Is(Right6(w), Right11(w), Right25(w));
  }

  lemma {:induction false} SmallSigma0Is(w: Hex)
    ensures SmallSigma0(Num(w)) == Num(SmallSigma0Hex(w))
  {
    Right7Is(w, 7, 1, 3);
    Right18Is(w, 18, 4, 2);
    Shift3Whole(w);
    Xor3Is(Right7(w), Right18(w), Shift3(w));
  }

  lemma {:induction false} SmallSigma1Is(w: Hex)
    ensures SmallSigma1(Num(w)) == Num(SmallSigma1Hex(w))
  {
    Right17Is(w, 17, 4, 1);
    Right19Is(w, 19, 4, 3);
    Shift10Whole(w);
    Xor3Is(Right17(w), Right19(w), Shift10(w));
  }
}
