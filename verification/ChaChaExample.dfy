/** The worked examples of RFC 8439: a quarter round (section 2.1.1), and the block function
    (section 2.3.2) in all its steps. */
module ChaChaExample {
  import opened Bits
  import opened HexWords
  import opened ChaCha20

  /** Four words, and a square of sixteen by its columns. */
  datatype Quad = Quad(a: Hex, b: Hex, c: Hex, d: Hex)

  datatype Square = Square(v0: Quad, v1: Quad, v2: Quad, v3: Quad)

  function Nums(v: Quad): (word, word, word, word)
  {
    (Num(v.a), Num(v.b), Num(v.c), Num(v.d))
  }

  function ColumnAt(s: Square, j: nat): Quad
    requires j < 4
  {
    match j case 0 => s.v0 case 1 => s.v1 case 2 => s.v2 case 3 => s.v3
  }

  function RowAt(v: Quad, k: nat): Hex
    requires k < 4
  {
    match k case 0 => v.a case 1 => v.b case 2 => v.c case 3 => v.d
  }

  /** Word i of the state, and the state: row by row. */
  function WordAt(s: Square, i: nat): Hex
    requires i < 16
  {
    RowAt(ColumnAt(s, i % 4), i / 4)
  }

  function State(s: Square): (t: seq<word>)
    ensures |t| == 16
  {
    seq(16, i requires 0 <= i < 16 => Num(WordAt(s, i)))
  }

  /** The diagonals of a square, as columns. */
  function Slanted(s: Square): Square
  {
    Square(Quad(s.v0.a, s.v1.b, s.v2.c, s.v3.d), Quad(s.v1.a, s.v2.b, s.v3.c, s.v0.d),
           Quad(s.v2.a, s.v3.b, s.v0.c, s.v1.d), Quad(s.v3.a, s.v0.b, s.v1.c, s.v2.d))
  }

  // ----- One quarter round -----

  /** v mixed is w, and m is what is there in the middle. */
  predicate Mixes(v: Quad, m: Quad, w: Quad)
  {
    && m.a == AddHex(v.a, v.b) && m.d == Turn16(XorHex(v.d, m.a))
    && m.c == AddHex(v.c, m.d) && m.b == Turn12(XorHex(v.b, m.c))
    && w.a == AddHex(m.a, m.b) && w.d == Turn8(XorHex(m.d, w.a))
    && w.c == AddHex(m.c, w.d) && w.b == Turn7(XorHex(m.b, w.c))
  }

  lemma Step(v: Quad, m: Quad, w: Quad)
    requires m.a == AddHex(v.a, v.b)
    requires m.d == Turn16(XorHex(v.d, m.a))
    requires m.c == AddHex(v.c, m.d)
    requires m.b == Turn12(XorHex(v.b, m.c))
    requires w.a == AddHex(m.a, m.b)
    requires w.d == Turn8(XorHex(m.d, w.a))
    requires w.c == AddHex(m.c, w.d)
    requires w.b == Turn7(XorHex(m.b, w.c))
    ensures Mixes(v, m, w)
  {
  }

  lemma LineIs(a: Hex, b: Hex, d: Hex, n: nat, x: Hex, y: Hex)
    requires x == AddHex(a, b) && 0 < n < 32 && Num(y) == Rotl(Num(XorHex(d, x)), n)
    ensures MixLine(Num(a), Num(b), Num(d), n) == (Num(x), Num(y))
  {
    AddIs(a, b);
    XorIs(d, x);
  }

  /** Digit by digit is as the standard says of the numbers. */
  lemma MixesIs(v: Quad, m: Quad, w: Quad)
    requires Mixes(v, m, w)
    ensures Mix(Nums(v)) == Nums(w)
  {
    Turn16Is(XorHex(v.d, m.a));
    LineIs(v.a, v.b, v.d, 16, m.a, m.d);
    Turn12Is(XorHex(v.b, m.c));
    LineIs(v.c, m.d, v.b, 12, m.c, m.b);
    Turn8Is(XorHex(m.d, w.a));
    LineIs(m.a, m.b, m.d, 8, w.a, w.d);
    Turn7Is(XorHex(m.b, w.c));
    LineIs(m.c, w.d, m.b, 7, w.c, w.b);
  }

  /** Section 2.1.1. */
  lemma QuarterExample(v: Quad, w: Quad)
    requires v == Quad(Hex(D1, D1, D1, D1, D1, D1, D1, D1), Hex(D0, D1, D0, D2, D0, D3, D0, D4),
                       Hex(D9, DB, D8, DD, D6, DF, D4, D3), Hex(D0, D1, D2, D3, D4, D5, D6, D7))
    requires w == Quad(Hex(DE, DA, D2, DA, D9, D2, DF, D4), Hex(DC, DB, D1, DC, DF, D8, DC, DE),
                       Hex(D4, D5, D8, D1, D4, D7, D2, DE), Hex(D5, D8, D8, D1, DC, D4, DB, DB))
    ensures Mix(Nums(v)) == Nums(w)
  {
    var m := Quad(Hex(D1, D2, D1, D3, D1, D4, D1, D5), Hex(DD, D8, D1, D7, D7, DE, DD, DF),
                  Hex(DE, DC, DF, DF, D8, D2, D7, D3), Hex(D5, D1, D7, D2, D1, D3, D3, D0));
    Step(v, m, w);
    MixesIs(v, m, w);
  }

  // ----- One double round -----

  ghost predicate AllMix(s: Square, m: Square, t: Square)
  {
    forall j :: 0 <= j < 4 ==> Mixes(ColumnAt(s, j), ColumnAt(m, j), ColumnAt(t, j))
  }

  lemma FourMix(s: Square, m: Square, t: Square)
    requires Mixes(s.v0, m.v0, t.v0) && Mixes(s.v1, m.v1, t.v1) && Mixes(s.v2, m.v2, t.v2) && Mixes(s.v3, m.v3, t.v3)
    ensures AllMix(s, m, t)
  {
    forall j | 0 <= j < 4
      ensures Mixes(ColumnAt(s, j), ColumnAt(m, j), ColumnAt(t, j))
    {
      if j == 0 {
      } else if j == 1 {
      } else if j == 2 {
      }
    }
  }

  lemma ColumnIs(s: Square, j: nat)
    requires j < 4
    ensures Column(State(s), j) == Nums(ColumnAt(s, j))
  {
    RowsOf(s, j);
    ColumnBy(State(s), j, ColumnAt(s, j));
  }

  lemma ColumnBy(t: seq<word>, j: nat, v: Quad)
    requires |t| == 16 && j < 4 && t[j] == Num(v.a) && t[4 + j] == Num(v.b) && t[8 + j] == Num(v.c) && t[12 + j] == Num(v.d)
    ensures Column(t, j) == Nums(v)
  {
  }

  lemma RowsOf(s: Square, j: nat)
    requires j < 4
    ensures WordAt(s, j) == ColumnAt(s, j).a && WordAt(s, 4 + j) == ColumnAt(s, j).b
    ensures WordAt(s, 8 + j) == ColumnAt(s, j).c && WordAt(s, 12 + j) == ColumnAt(s, j).d
  {
  }

  lemma DiagonalIs(s: Square, j: nat)
    requires j < 4
    ensures Diagonal(State(s), j) == Nums(ColumnAt(Slanted(s), j))
  {
    RowsOf(s, j);
    RowsOf(s, (j + 1) % 4);
    RowsOf(s, (j + 2) % 4);
    RowsOf(s, (j + 3) % 4);
    SlantedIs(s, j);
  }

  lemma SlantedIs(s: Square, j: nat)
    requires j < 4
    ensures ColumnAt(Slanted(s), j)
      == Quad(ColumnAt(s, j).a, ColumnAt(s, (j + 1) % 4).b, ColumnAt(s, (j + 2) % 4).c, ColumnAt(s, (j + 3) % 4).d)
  {
  }

  lemma DoubleOf(s: Square, m: Square, t: Square, g: Square, u: Square)
    requires AllMix(s, m, t) && AllMix(Slanted(t), g, Slanted(u))
    ensures Doubled(State(s), State(t), State(u))
  {
    forall j | 0 <= j < 4
      ensures Column(State(t), j) == Mix(Column(State(s), j))
    {
      ColumnOf(s, m, t, j);
    }
    forall j | 0 <= j < 4
      ensures Diagonal(State(u), j) == Mix(Diagonal(State(t), j))
    {
      DiagonalOf(t, g, u, j);
    }
  }

  lemma ColumnOf(s: Square, m: Square, t: Square, j: nat)
    requires AllMix(s, m, t) && j < 4
    ensures Column(State(t), j) == Mix(Column(State(s), j))
  {
    MixesIs(ColumnAt(s, j), ColumnAt(m, j), ColumnAt(t, j));
    ColumnIs(s, j);
    ColumnIs(t, j);
  }

  lemma DiagonalOf(t: Square, g: Square, u: Square, j: nat)
    requires AllMix(Slanted(t), g, Slanted(u)) && j < 4
    ensures Diagonal(State(u), j) == Mix(Diagonal(State(t), j))
  {
    MixesIs(ColumnAt(Slanted(t), j), ColumnAt(g, j), ColumnAt(Slanted(u), j));
    DiagonalIs(t, j);
    DiagonalIs(u, j);
  }

  // ----- The last sum -----

  function Bytes(w: Hex): (b: seq<byte>)
    ensures |b| == 4
  {
    [Pair(w.h1, w.h0), Pair(w.h3, w.h2), Pair(w.h5, w.h4), Pair(w.h7, w.h6)]
  }

  lemma BytesAre(w: Hex)
    ensures Store(Num(w)) == Bytes(w)
  {
    FourBytes(Num(w), Pair(w.h1, w.h0), Pair(w.h3, w.h2), Pair(w.h5, w.h4), Pair(w.h7, w.h6));
  }

  lemma FourBytes(x: word, a: byte, b: byte, c: byte, d: byte)
    requires x == a + 0x100 * b + 0x1_0000 * c + 0x100_0000 * d
    ensures Store(x) == [a, b, c, d]
  {
    var y, z := b + 0x100 * c + 0x1_0000 * d, c + 0x100 * d;
    LowByte(x, y, a);
    LowByte(y, z, b);
    LowByte(z, d, c);
    Quotients(x);
  }

  lemma Quotients(x: nat)
    ensures x / 0x1_0000 == x / 0x100 / 0x100 && x / 0x100_0000 == x / 0x100 / 0x100 / 0x100
  {
  }

  /** The words of a square in bytes, the lowest byte of each first. */
  function AllBytes(f: Square, n: nat): (b: seq<byte>)
    requires n <= 16
    ensures |b| == 4 * n
    decreases n, f
  {
    if n == 0 then [] else AllBytes(f, n - 1) + Bytes(WordAt(f, n - 1))
  }

  predicate QuadSums(x: Quad, y: Quad, z: Quad)
  {
    z.a == AddHex(x.a, y.a) && z.b == AddHex(x.b, y.b) && z.c == AddHex(x.c, y.c) && z.d == AddHex(x.d, y.d)
  }

  lemma SumStep(x: Quad, y: Quad, z: Quad)
    requires z.a == AddHex(x.a, y.a)
    requires z.b == AddHex(x.b, y.b)
    requires z.c == AddHex(x.c, y.c)
    requires z.d == AddHex(x.d, y.d)
    ensures QuadSums(x, y, z)
  {
  }

  ghost predicate AllSums(x: Square, s: Square, f: Square)
  {
    forall j :: 0 <= j < 4 ==> QuadSums(ColumnAt(x, j), ColumnAt(s, j), ColumnAt(f, j))
  }

  lemma FourSums(x: Square, s: Square, f: Square)
    requires QuadSums(x.v0, s.v0, f.v0) && QuadSums(x.v1, s.v1, f.v1) && QuadSums(x.v2, s.v2, f.v2) && QuadSums(x.v3, s.v3, f.v3)
    ensures AllSums(x, s, f)
  {
    forall j | 0 <= j < 4
      ensures QuadSums(ColumnAt(x, j), ColumnAt(s, j), ColumnAt(f, j))
    {
      if j == 0 {
      } else if j == 1 {
      } else if j == 2 {
      }
    }
  }

  lemma SumAt(x: Square, s: Square, f: Square, i: nat)
    requires AllSums(x, s, f) && i < 16
    ensures AddWord(Num(WordAt(x, i)), Num(WordAt(s, i))) == Num(WordAt(f, i))
  {
    AddIs(WordAt(x, i), WordAt(s, i));
    SumRow(ColumnAt(x, i % 4), ColumnAt(s, i % 4), ColumnAt(f, i % 4), i / 4);
  }

  lemma SumRow(x: Quad, y: Quad, z: Quad, k: nat)
    requires QuadSums(x, y, z) && k < 4
    ensures RowAt(z, k) == AddHex(RowAt(x, k), RowAt(y, k))
  {
  }

  lemma {:induction false} SerializeIs(x: Square, s: Square, f: Square, n: nat)
    requires n <= 16 && AllSums(x, s, f)
    ensures Serialize(State(x), State(s), n) == AllBytes(f, n)
  {
    if n > 0 {
      SerializeIs(x, s, f, n - 1);
      SumAt(x, s, f, n - 1);
      BytesAre(WordAt(f, n - 1));
      OneWord(State(x), State(s), n, WordAt(f, n - 1));
    }
  }

  lemma OneWord(x: seq<word>, s: seq<word>, n: nat, w: Hex)
    requires 0 < n <= |x| == |s| && AddWord(x[n - 1], s[n - 1]) == Num(w) && Store(Num(w)) == Bytes(w)
    ensures Serialize(x, s, n) == Serialize(x, s, n - 1) + Bytes(w)
  {
  }

  // ----- The state as it is set up -----

  lemma KeyWord(key: seq<byte>, i: nat)
    requires key == seq(32, k => k) && i < 8
    ensures WordsOf(key, 8)[i] == 4 * i + 0x100 * (4 * i + 1) + 0x1_0000 * (4 * i + 2) + 0x100_0000 * (4 * i + 3)
  {
  }

  lemma NonceWords(nonce: seq<byte>)
    requires nonce == [0, 0, 0, 9, 0, 0, 0, 0x4a, 0, 0, 0, 0]
    ensures WordsOf(nonce, 3) == [0x0900_0000, 0x4a00_0000, 0]
  {
  }

  /** `num` and `state` stand for the functions, which are looked up only where needed. */
  ghost predicate IsNum(num: Hex -> word)
  {
    forall w: Hex {:trigger Num(w)} :: num(w) == Num(w)
  }

  ghost predicate IsState(state: Square -> seq<word>)
  {
    forall s: Square {:trigger State(s)} :: state(s) == State(s)
  }

  // ----- The squares of the example -----

  /** The state as it is set up; and for each double round the middle and the end of the column
      round, the middle of the diagonal round (by diagonals), and its end. */
  const S0 := Square(
    Quad(Hex(D6,D1,D7,D0,D7,D8,D6,D5), Hex(D0,D3,D0,D2,D0,D1,D0,D0), Hex(D1,D3,D1,D2,D1,D1,D1,D0), Hex(D0,D0,D0,D0,D0,D0,D0,D1)),
    Quad(Hex(D3,D3,D2,D0,D6,D4,D6,DE), Hex(D0,D7,D0,D6,D0,D5,D0,D4), Hex(D1,D7,D1,D6,D1,D5,D1,D4), Hex(D0,D9,D0,D0,D0,D0,D0,D0)),
    Quad(Hex(D7,D9,D6,D2,D2,DD,D3,D2), Hex(D0,DB,D0,DA,D0,D9,D0,D8), Hex(D1,DB,D1,DA,D1,D9,D1,D8), Hex(D4,DA,D0,D0,D0,D0,D0,D0)),
    Quad(Hex(D6,DB,D2,D0,D6,D5,D7,D4), Hex(D0,DF,D0,DE,D0,DD,D0,DC), Hex(D1,DF,D1,DE,D1,DD,D1,DC), Hex(D0,D0,D0,D0,D0,D0,D0,D0)))

  const C1 := Square(
    Quad(Hex(D6,D4,D7,D2,D7,D9,D6,D5), Hex(D4,D7,D4,D8,D2,D8,DF,D7), Hex(D8,DC,D7,D6,D7,D5,D8,D2), Hex(D7,D9,D6,D4,D6,D4,D7,D2)),
    Quad(Hex(D3,DA,D2,D6,D6,D9,D7,D2), Hex(DE,D4,DD,D3,DE,D8,D7,D8), Hex(D8,D0,D8,D8,D4,D8,D3,DA), Hex(D6,D9,D7,D2,D3,D3,D2,D6)),
    Quad(Hex(D8,D4,D6,DC,D3,D6,D3,DA), Hex(DE,DE,DE,D8,DC,D5,DA,D5), Hex(D5,D1,D5,D4,DE,D7,D8,D4), Hex(D3,D6,D3,DA,DC,DE,D6,DC)),
    Quad(Hex(D7,DA,D2,DE,D7,D2,D8,D0), Hex(D0,D9,DA,D4,D6,D9,DE,D9), Hex(D9,D1,D9,DE,D9,D7,D4,DA), Hex(D7,D2,D8,D0,D7,DA,D2,DE)))

  const T1 := Square(
    Quad(Hex(DA,DB,DB,DA,DA,D2,D5,DC), Hex(D3,DA,D4,D6,D5,D1,D9,D6), Hex(D6,DB,D3,DC,DA,D4,D5,D4), Hex(DD,DE,DC,D6,D2,DE,DD,D2)),
    Quad(Hex(D1,DE,DF,DA,D5,D1,DE,DA), Hex(D1,DC,D7,DE,D6,D4,DF,D6), Hex(D0,D8,DE,DB,D1,D4,DB,D1), Hex(D8,D8,D6,D2,DC,DC,D7,D7)),
    Quad(Hex(D7,D3,D5,D4,DF,DB,DD,DF), Hex(DB,D1,D2,DF,DB,D6,D2,D8), Hex(DB,DF,D8,DA,D9,DA,DC,D9), Hex(D6,DE,D3,D5,DB,D3,D4,D5)),
    Quad(Hex(D8,D3,DD,D2,DD,DC,D6,D9), Hex(DF,D0,D5,DB,D6,D9,D7,D6), Hex(DE,D4,D4,D4,DD,DF,D3,DB), Hex(D5,D2,DA,D6,D4,D7,DF,D1)))

  const G1 := Square(
    Quad(Hex(DC,D8,D3,D9,D0,D7,D5,D2), Hex(D0,D5,D1,D9,DE,D1,DC,D5), Hex(D0,D0,D2,DE,D3,D5,D6,D8), Hex(D4,D0,DA,D3,D9,DA,D9,DF)),
    Quad(Hex(DD,D0,D2,DA,D0,D8,D1,D2), Hex(DB,D5,D8,D0,DF,DB,DA,D2), Hex(D0,DB,D0,D4,DE,DE,D2,D7), Hex(D2,D6,DC,D0,D0,DE,DE,DC)),
    Quad(Hex(D6,D3,DB,D0,D6,D5,D5,D5), Hex(D4,DF,D9,D5,D0,DE,D4,D0), Hex(D1,D4,D5,DF,D9,D0,D2,D6), Hex(DA,D9,D2,D2,DE,DB,DD,D2)),
    Quad(Hex(DB,DE,D1,D9,D2,DD,DF,DF), Hex(D3,DB,D5,D4,DB,D9,DD,DE), Hex(DA,D7,DA,D5,DE,D4,DD,DD), Hex(D9,DE,DB,DA,DD,D0,D2,DC)))

  const S1 := Square(
    Quad(Hex(DC,DD,D5,D2,DE,D9,D1,D7), Hex(DC,D4,DB,D7,DC,DD,D2,D2), Hex(D7,DB,DF,D7,DD,D7,D4,D0), Hex(D6,DB,D0,DD,D5,D8,DA,D3)),
    Quad(Hex(D8,D5,DA,DB,D0,D3,DB,D4), Hex(D5,DC,D2,DE,D1,D8,D7,DA), Hex(D7,DE,DD,DD,DD,D6,D4,D4), Hex(D6,D7,D9,D8,D4,D7,D1,DA)),
    Quad(Hex(DB,D3,D4,D5,D7,D3,D9,D5), Hex(DC,D9,D5,DE,DB,D4,D6,D1), Hex(DF,D1,DA,D1,DB,DD,DF,D5), Hex(DD,D7,D3,D7,DF,D1,D6,D7)),
    Quad(Hex(DF,D9,D6,DD,DE,D7,DD,DD), Hex(D3,D1,D6,DC,D8,D0,D1,DA), Hex(D7,D6,D1,D2,D4,D6,DC,DA), Hex(DF,D1,D7,D3,D8,D8,D8,DD)))

  const C2 := Square(
    Quad(Hex(D9,D2,D0,DA,DB,D6,D3,D9), Hex(D5,D1,DD,D6,D5,DA,DE,D2), Hex(D6,DA,D9,D2,DD,D0,D4,D7), Hex(DE,DE,D9,DA,DF,D9,D0,D7)),
    Quad(Hex(DE,D1,DD,D9,D1,DC,D2,DE), Hex(DC,D4,D4,DF,DF,D8,D6,D3), Hex(DD,DA,D1,D2,D5,DC,D8,D5), Hex(D5,DB,D3,D4,D8,D6,D4,D1)),
    Quad(Hex(D7,DC,DA,D4,D2,D7,DF,D6), Hex(DD,DD,DD,DE,D9,D0,D1,D6), Hex(DC,D8,D3,D3,D6,D9,D8,D8), Hex(DD,D6,D9,D1,DA,DB,D9,D3)),
    Quad(Hex(D2,DA,DD,DA,D6,D7,DF,D7), Hex(D1,DA,D2,D6,D9,D5,D4,DE), Hex(D6,D5,D8,DD,D2,D2,D7,D3), Hex(DE,DF,D7,DA,DD,DB,DA,D9)))

  const T2 := Square(
    Quad(Hex(DE,D3,DE,D1,D1,D1,D1,DB), Hex(DD,D6,D5,DB,D5,DB,D5,DB), Hex(DE,D6,D7,DA,DE,DC,D5,D4), Hex(D7,DB,DE,D8,D1,DC,D0,DD)),
    Quad(Hex(DA,D6,D2,D9,D1,D4,D9,D1), Hex(DF,D5,D6,DA,DF,D0,D9,D9), Hex(DF,D7,DA,D5,D2,DD,D8,D2), Hex(D1,DD,D9,D2,DD,D0,DF,DD)),
    Quad(Hex(D5,DA,D8,D2,DB,D8,D0,DC), Hex(D4,DC,DC,DC,D8,D1,D0,D3), Hex(DD,DB,D4,D7,D0,D9,D1,D4), Hex(D1,D3,D1,D3,D9,DF,D8,DC)),
    Quad(Hex(D4,D5,D0,D0,DF,DD,D4,D5), Hex(DC,D9,D4,DD,D2,D9,DE,D2), Hex(DD,DF,DB,D4,D0,DF,D1,DD), Hex(D7,DA,D2,D6,DE,DC,DA,DA)))

  const G2 := Square(
    Quad(Hex(DD,D9,D4,DC,D0,D1,DB,D4), Hex(DF,D5,DC,DE,D7,D3,DD,D0), Hex(DC,D8,D6,D5,DA,DC,D7,DE), Hex(DE,DD,D1,DE,DA,D3,D6,DA)),
    Quad(Hex(DF,D2,DF,D5,D9,D5,D9,D4), Hex(D1,D1,D9,D3,D9,D2,D5,D8), Hex(D6,D9,D4,DD,D9,D8,D3,DA), Hex(D8,D9,D9,D9,D8,D9,D1,DD)),
    Quad(Hex(D2,D3,DC,DF,DE,D1,DE,DE), Hex(D3,D0,D3,D5,D3,DD,DE,DC), Hex(D1,D7,D8,DE,D2,DA,DB,D1), Hex(D3,D1,D1,D3,D3,DE,D5,DD)),
    Quad(Hex(D1,DB,D5,DC,D5,D8,DA,D0), Hex(DA,D6,DE,D8,DA,D6,D8,D8), Hex(DB,DE,DD,D1,D3,D5,DD,D1), Hex(DC,D7,D2,DC,D0,D8,D4,DF)))

  const S2 := Square(
    Quad(Hex(DC,DF,D1,DA,D7,D5,D8,D4), Hex(D9,D0,D1,DD,D2,DF,D4,D0), Hex(D2,DD,DA,DF,DB,D2,D1,D6), Hex(D1,D0,DA,DE,DF,D1,D8,DD)),
    Quad(Hex(D0,D4,D8,D9,D2,D7,DE,DC), Hex(D7,D9,D7,D4,DB,D8,D1,DC), Hex(D2,D7,DC,D8,D9,DC,DD,D6), Hex(D1,D6,D2,D1,D8,D7,D6,D5)),
    Quad(Hex(D5,D4,D0,D5,D1,DF,DD,DA), Hex(D3,D7,D8,DD,DC,DF,DB,D4), Hex(DC,DD,D3,DC,D9,DA,DA,D0), Hex(D6,D8,DF,D7,D6,D7,D0,D5)),
    Quad(Hex(DC,D2,D4,D4,DF,DF,D2,D8), Hex(DC,DD,D4,D7,DF,DD,D0,DE), Hex(D7,D9,DF,DC,D8,D9,DC,D7), Hex(D0,D4,DD,D6,DE,DE,D2,D2)))

  const C3 := Square(
    Quad(Hex(D5,DF,D3,D7,DA,D4,DC,D4), Hex(D4,D2,DE,DE,DF,D1,D2,DE), Hex(D8,D2,DF,D9,D0,D1,DA,DF), Hex(D5,D5,D4,D9,D4,DF,D9,D9)),
    Quad(Hex(D7,DD,DF,DD,DE,D0,D0,D8), Hex(D2,DB,D0,DA,DE,DF,D6,D4), Hex(D8,DF,D3,D6,D0,D8,DB,D2), Hex(D6,D7,D6,DD,D6,DB,DD,DC)),
    Quad(Hex(D8,DB,D9,D2,DE,DF,D8,DE), Hex(D5,DB,D1,DB,D1,D6,D2,D4), Hex(D5,D5,DC,D8,D7,DE,D0,D5), Hex(D8,D8,D8,DB,DE,D3,D6,D5)),
    Quad(Hex(D8,DF,D8,DC,DF,DC,D3,D6), Hex(D6,DE,D8,D2,DF,D4,D1,D5), Hex(D8,DC,D1,D1,D1,D5,D2,D1), Hex(D1,D2,D1,D4,D8,DB,D5,DA)))

  const T3 := Square(
    Quad(Hex(DA,D2,D2,D6,D9,D5,DF,D2), Hex(D1,DE,DC,DE,D4,D4,D5,D8), Hex(DF,D2,DD,D3,D6,DD,DA,D6), Hex(D6,DF,DD,DA,D6,DB,DF,D7)),
    Quad(Hex(DA,D9,D0,D8,DC,DF,D6,DC), Hex(DE,D8,D2,DB,D7,D2,D6,DF), Hex(DF,D4,DD,DA,DB,D9,D8,D0), Hex(D6,D5,DA,D4,DB,D0,DC,DE)),
    Quad(Hex(DE,D6,DA,DE,D0,D5,DB,D2), Hex(D5,DA,D2,D1,DA,DB,D9,D0), Hex(D7,DB,DA,DF,D5,D5,D7,D3), Hex(D2,D5,DE,D6,DD,D7,D6,DE)),
    Quad(Hex(DF,DE,D0,DF,DF,D0,D4,DB), Hex(D8,D7,D6,D9,D8,DC,D6,D4), Hex(DA,D7,D8,DC,D2,D7,D0,DD), Hex(D1,DB,D7,DB,D1,D1,DE,DC)))

  const G3 := Square(
    Quad(Hex(D8,DA,D5,D2,D0,D8,D6,D1), Hex(D7,D9,D4,DF,D3,D7,DD,D1), Hex(D9,D5,D3,DC,DE,D6,D9,DC), Hex(D1,D9,D8,DD,D9,D1,D2,D9)),
    Quad(Hex(D0,D3,D2,DA,D7,DA,DF,DC), Hex(D6,D3,D8,D6,DD,DE,D2,DB), Hex(DB,D8,D9,D7,D9,D3,DF,DD), Hex(D1,D1,D0,DB,D6,DC,DF,D0)),
    Quad(Hex(D6,DE,D1,D7,D9,D2,D1,D6), Hex(D2,DF,D5,D3,DD,D9,D2,DC), Hex(D1,D5,DA,DB,D7,D9,D5,D9), Hex(D2,D2,DD,D8,D0,DB,DB,D3)),
    Quad(Hex(D1,DC,DD,DE,D3,D4,DA,D3), Hex(D9,DB,D6,DE,D0,DC,D6,D6), Hex(DD,D8,DA,D7,DF,D2,DB,D8), Hex(DE,D3,DC,DD,D3,D9,D3,D8)))

  const S3 := Square(
    Quad(Hex(D0,D3,DA,D1,D4,D0,D3,D2), Hex(DA,D7,D1,D4,D3,DA,DE,D0), Hex(DC,D9,D0,DC,D6,DB,D1,D8), Hex(DB,DA,D3,D5,DD,D7,D7,D7)),
    Quad(Hex(D6,D6,DB,D1,D5,D9,D2,D7), Hex(DA,D0,D9,DB,D3,D3,DD,DD), Hex(D5,DA,D2,D0,D2,D4,D1,D3), Hex(DB,D3,D6,D0,DF,D1,DB,DF)),
    Quad(Hex(D9,DD,D6,DB,D6,DB,D4,D2), Hex(DA,D5,DD,DA,DA,DF,D8,D8), Hex(DC,D2,D0,DE,D0,D1,DB,D6), Hex(D8,D1,D7,D8,D3,D1,D5,DB)),
    Quad(Hex(DB,D8,D4,DC,D4,D1,D0,D9), Hex(D2,DF,DD,D9,D1,DA,D7,D3), Hex(D7,D2,DC,DD,D6,DB,D7,D4), Hex(D2,DC,DD,D1,D1,DB,D1,DA)))

  const C4 := Square(
    Quad(Hex(DA,DA,DB,D5,D7,DB,D1,D2), Hex(D5,D4,D1,D7,D8,DD,D2,D6), Hex(D7,D5,D7,D1,D7,DB,D9,D8), Hex(DA,DC,D6,D5,D1,D0,D8,D0)),
    Quad(Hex(D0,D7,D4,DC,D8,DD,D0,D4), Hex(D0,DE,DB,DE,D2,D7,D6,D4), Hex(DD,D6,DD,DB,DD,D8,D3,DF), Hex(D7,DC,DB,DB,DB,D4,D2,DC)),
    Quad(Hex(D4,D3,D4,D6,D1,DA,DC,DA), Hex(D5,D6,DC,D7,DC,D4,D8,D4), Hex(DE,DD,D9,DF,DC,D3,DF,D4), Hex(D2,DB,D9,D1,DC,D2,D3,DE)),
    Quad(Hex(DE,D8,D2,D5,D5,DB,D7,DC), Hex(DD,D2,DA,D1,DB,D9,DC,DE), Hex(DB,D3,D3,D4,D3,D0,D6,D8), Hex(D4,D0,D6,D6,DC,D4,DF,D4)))

  const T4 := Square(
    Quad(Hex(DF,DE,DC,DD,D0,D8,D3,D8), Hex(DC,DE,DD,DF,D6,D6,D2,D4), Hex(D1,DD,D8,DA,D3,D3,DE,DA), Hex(DA,D8,D1,D8,DB,D8,D5,D2)),
    Quad(Hex(D1,D6,D0,DA,DB,D4,D6,D8), Hex(DB,D1,D1,DD,DE,D6,DC,D4), Hex(D8,D7,DD,DC,D1,DC,DA,D9), Hex(DB,D1,D0,D0,D4,D4,D6,DA)),
    Quad(Hex(D9,DA,D0,DD,DD,DF,D4,DE), Hex(DB,DD,D7,D8,D1,D0,DE,DF), Hex(D8,D9,DB,DD,D3,D4,DA,D5), Hex(D9,DC,D1,DD,D7,D0,DB,D1)),
    Quad(Hex(DB,DA,DC,D7,D1,D5,D4,DA), Hex(DD,D2,D2,DB,D5,D6,D4,D3), Hex(D5,D5,D0,D5,DE,DF,D6,D2), Hex(DA,D1,DD,D1,DB,DE,DF,DA)))

  const G4 := Square(
    Quad(Hex(DA,DF,DE,DA,DE,DE,DF,DC), Hex(DE,DA,D4,D2,D4,D6,D8,DD), Hex(DD,D9,DC,D3,D4,D2,DE,D0), Hex(D5,D0,D0,D6,D0,DE,D3,DB)),
    Quad(Hex(DD,D3,D8,D2,DC,D5,D5,D7), Hex(D3,D7,DA,D1,D3,D6,DF,D7), Hex(DD,D2,D0,DB,D6,DA,DF,DC), Hex(D7,DD,D0,D5,D7,DB,D9,DA)),
    Quad(Hex(D6,DC,D3,D9,D3,D5,D9,D1), Hex(DD,D4,D7,D6,D0,D5,DD,DA), Hex(D8,DF,D8,D6,D1,D1,D2,D3), Hex(D7,D1,DF,DB,DD,DD,D3,D9)),
    Quad(Hex(D8,D9,DA,D6,D7,DB,D6,DE), Hex(D4,D5,D4,D4,D0,D5,DD,D6), Hex(D9,D3,DB,DB,D3,D2,D6,D4), Hex(D0,DB,DD,DF,D1,D5,DB,DB)))

  const S4 := Square(
    Quad(Hex(D9,DA,D2,DD,D3,D5,D8,D9), Hex(D0,DA,D1,DB,DF,DF,DC,D6), Hex(DE,D4,D6,DC,D6,D3,D5,D4), Hex(D2,D6,D8,D7,DD,D4,D7,D6)),
    Quad(Hex(D0,DB,D2,D3,DF,DC,D4,DE), Hex(D5,DE,D5,D9,D9,D3,DF,D7), Hex(DC,D9,D5,D0,D3,D2,D2,D9), Hex(D5,D4,DE,D6,D5,D2,D3,D1)),
    Quad(Hex(D4,D0,DA,DF,D3,DB,D6,DB), Hex(D9,D9,D0,D4,DC,D2,DE,D7), Hex(D0,D4,DF,DE,DF,D5,DA,DA), Hex(D3,D5,D9,D4,DF,DF,DC,D5)),
    Quad(Hex(DC,DE,DE,DA,D8,D1,D4,D4), Hex(D0,DD,D3,D3,D4,D7,D1,D8), Hex(DF,D8,D9,D3,D3,DF,D7,D2), Hex(D2,DB,D3,DB,DB,D2,DC,DA)))

  const C5 := Square(
    Quad(Hex(DA,D4,D4,D9,D3,D5,D4,DF), Hex(DE,D1,D9,DE,D4,DC,DF,DB), Hex(DC,D5,DA,D5,DE,D6,D2,D2), Hex(DE,D1,D3,D9,D8,D2,DC,DE)),
    Quad(Hex(D6,D9,D7,DD,D9,D0,D4,D5), Hex(DD,DF,DC,D3,D3,DD,D5,D9), Hex(D8,DB,DC,D4,D6,DF,DC,D4), Hex(DC,D2,D7,D4,D3,DD,D9,DB)),
    Quad(Hex(DD,D9,DB,D3,DF,DE,D5,D2), Hex(D2,D2,D3,D3,D6,D9,DF,D9), Hex(D0,D6,D9,D6,DE,D1,DD,D1), Hex(D0,D1,D9,D7,DE,DC,D2,D7)),
    Quad(Hex(DD,DC,D1,DD,DC,D8,D5,DC), Hex(D9,D7,D1,D8,D0,D7,DE,D1), Hex(D7,D3,D2,DA,D3,D6,D9,D8), Hex(D7,DA,D9,D6,DF,D7,D2,D6)))

  const T5 := Square(
    Quad(Hex(D8,D5,DE,D7,D8,D2,D4,DA), Hex(D1,DC,D1,D3,D3,DE,DA,D1), Hex(DA,D3,DA,D6,D6,DA,D8,D6), Hex(DD,DE,D0,D0,D8,D4,D6,D4)),
    Quad(Hex(D4,D9,D4,D0,DC,DD,D9,DE), Hex(DB,DB,DA,D4,D0,DB,D0,DF), Hex(DC,D0,DB,D4,D7,D5,D4,DF), Hex(D3,D4,DF,D0,D0,D5,D8,DB)),
    Quad(Hex(DF,DB,DE,D7,D6,D8,D4,DB), Hex(D9,D4,D1,D3,D9,D9,D2,DA), Hex(D7,D7,D1,DB,D4,DE,DC,DB), Hex(D7,D0,D8,D4,D6,DC,DF,DA)),
    Quad(Hex(D7,D3,D3,D5,DD,D0,D3,DD), Hex(DA,D4,DA,DB,D2,D0,D4,D0), Hex(D1,D6,D5,D1,D5,D1,DA,D1), Hex(DA,D3,D2,D7,D1,DB,D0,D9)))

  const G5 := Square(
    Quad(Hex(D4,D1,D8,DB,D8,DD,D5,D9), Hex(D8,D3,DA,D7,D8,DB,D6,DC), Hex(D0,DD,D6,DC,D3,D1,D7,D7), Hex(D9,D6,D5,D0,DE,D2,DA,DC)),
    Quad(Hex(DD,DD,D5,D4,D6,D6,DC,D8), Hex(DE,DC,DD,DD,DF,D6,DC,DE), Hex(DF,D8,DF,DD,D5,D4,DF,D5), Hex(DE,D2,DA,DC,D0,D3,D5,D4)),
    Quad(Hex(DA,D0,D9,D2,D8,D8,D8,DB), Hex(DD,DD,DE,DA,D8,D9,D4,D0), Hex(D3,D0,DA,D6,DF,DE,DE,D8), Hex(D8,DD,D0,D0,D9,D4,D6,D2)),
    Quad(Hex(D8,DF,D4,D9,D0,DE,DD,DE), Hex(DA,D4,DB,DB,DD,D3,DE,DC), Hex(D2,D2,DD,D9,D7,D5,D1,DC), Hex(D6,D2,D2,D4,DF,DF,DC,DD)))

  const S5 := Square(
    Quad(Hex(DC,D5,D3,D3,D1,D8,DC,D5), Hex(D2,D6,DD,D7,DC,DF,D7,D3), Hex(DA,DE,D2,DC,DA,D8,DD,DB), Hex(D9,DE,D5,DE,DC,D2,D2,D8)),
    Quad(Hex(DC,DA,D3,D2,D5,DD,D9,D6), Hex(D6,D0,D8,D8,DD,D3,D7,D9), Hex(D4,D2,DF,D6,D7,DC,D7,D2), Hex(D7,DD,D8,D5,DA,D9,DF,D3)),
    Quad(Hex(D7,DE,D7,DD,D1,D1,DC,DB), Hex(DC,D0,DF,D0,DE,D9,DB,DD), Hex(D7,D1,D6,D6,D9,DA,DC,DA), Hex(D2,D0,D1,DD,D0,D7,D5,D6)),
    Quad(Hex(D3,D4,D0,D4,DE,D2,DC,DA), Hex(DE,D3,D1,D0,DC,DD,DB,D9), Hex(D9,D7,D5,DC,D1,D7,D1,DD), Hex(D6,D3,DF,DA,D6,D9,D5,D3)))

  const C6 := Square(
    Quad(Hex(DE,DC,D0,DA,DE,D8,D3,D8), Hex(DA,DD,D4,D5,DC,DF,DE,DE), Hex(DD,D8,D3,DD,D1,DB,D2,DF), Hex(D2,DA,D1,D0,D7,D2,D5,D4)),
    Quad(Hex(D2,DA,DB,DB,D3,D1,D0,DF), Hex(DA,D0,D0,DC,D9,DB,DB,D7), Hex(DD,DB,DF,D2,DD,D3,DB,D0), Hex(D9,D8,DF,DC,D5,D7,D3,DE)),
    Quad(Hex(D3,DF,D6,DD,DF,DB,D8,D8), Hex(D4,D5,D3,D8,D7,DA,DE,DB), Hex(D6,DE,D4,D4,DB,DA,D3,DA), Hex(DF,DC,DD,DE,D1,DF,D7,D0)),
    Quad(Hex(D1,D7,D1,D5,DB,D0,D8,D3), Hex(DC,D4,D1,DB,D5,D9,D2,D3), Hex(D7,D1,D2,DC,D8,DC,D0,DC), Hex(DD,D9,DD,D0,D7,D4,DE,DF)))

  const T6 := Square(
    Quad(Hex(D9,D9,D5,D0,DB,D8,D2,D6), Hex(D2,D1,D2,D1,D0,D6,D5,DA), Hex(D1,D9,D0,D7,D8,DD,DE,D2), Hex(D4,D0,DC,DA,D7,D2,DB,D3)),
    Quad(Hex(DC,DA,DC,D7,DC,DC,DC,D6), Hex(DC,D1,D2,DB,DD,DA,DD,DB), Hex(D1,D7,D8,DE,DC,DC,D0,D2), Hex(D3,DB,D9,DB,DF,D8,D5,D2)),
    Quad(Hex(D8,D4,DA,D6,D7,D6,D7,D3), Hex(DC,DA,DE,D3,DA,DC,DD,D1), Hex(DE,D6,DA,DD,DB,DD,DB,D2), Hex(D7,D8,D6,D9,D0,D3,D7,D8)),
    Quad(Hex(DD,DB,D3,D1,D0,D9,DA,D6), Hex(D5,D9,D4,D6,D1,D6,DC,DB), Hex(D5,D2,DA,D9,DD,D5,D0,DE), Hex(DE,D1,D7,DD,D4,D9,D0,D2)))

  const G6 := Square(
    Quad(Hex(D5,DA,D7,DC,D9,D3,D0,D1), Hex(DA,DA,D2,D6,D8,D0,D1,D9), Hex(DC,D0,DB,D1,D7,D8,DB,D3), Hex(DD,DA,D0,D3,DB,DB,D0,D1)),
    Quad(Hex(D9,D5,DA,DB,D7,D9,D9,D7), Hex(DD,D0,D6,DB,DE,D9,D7,D2), Hex(D5,DD,DC,DE,DA,DA,D6,DF), Hex(D0,DB,D2,D4,DD,D5,D6,D1)),
    Quad(Hex(DD,DD,DE,DC,D8,DD,D3,DE), Hex(D2,D6,D2,D9,D2,DD,D7,D3), Hex(D8,DE,D7,D4,D7,D4,D5,D9), Hex(D7,D5,D6,DC,DE,D6,D7,D7)),
    Quad(Hex(DF,DC,D5,D2,D1,D0,D0,D0), Hex(D6,D5,D6,D6,D7,D0,DA,D2), Hex(D2,DB,D0,D7,D5,D0,D3,DD), Hex(D1,D3,D7,D8,D8,D4,D3,DB)))

  const S6 := Square(
    Quad(Hex(D0,D4,DA,D3,D1,D3,D1,DA), Hex(D3,D6,DC,DC,D8,D6,DC,D7), Hex(D0,D7,DD,D1,D3,DA,DC,DA), Hex(D3,D3,DB,D6,D6,D8,D6,DD)),
    Quad(Hex(D6,D6,D1,D7,D6,D3,D0,D9), Hex(DB,DF,D8,DA,D4,D4,D6,D5), Hex(DE,DB,D0,DB,DE,D9,DA,DF), Hex(D7,D9,D5,DC,DC,D6,D7,D1)),
    Quad(Hex(D0,D4,D1,D5,DB,DA,DB,D1), Hex(DF,D7,D7,DD,DD,D7,D2,D0), Hex(D6,D1,D5,D9,D9,D4,D9,D1), Hex(DC,D0,D0,D4,D9,D9,D7,D2)),
    Quad(Hex(D6,D1,DB,D8,D8,D0,DA,D2), Hex(DF,DC,D0,DB,DD,DC,D9,D0), Hex(D9,D1,D8,D5,D1,D2,DD,DC), Hex(DA,D0,DA,D8,D1,DB,DD,DE)))

  const C7 := Square(
    Quad(Hex(D3,DB,D6,DF,D9,D9,DE,D1), Hex(D1,DC,D5,D6,D4,DC,DF,D9), Hex(DF,D9,D5,DD,D4,D3,DA,D3), Hex(DF,D1,D8,DC,D0,D8,DD,D9)),
    Quad(Hex(D2,D5,DA,D1,DA,D7,D6,DE), Hex(D1,D0,D2,DC,D9,DF,D3,DA), Hex(D4,DC,D2,DB,D4,D6,DA,DC), Hex(D6,D1,D1,DF,D5,DC,DF,DD)),
    Quad(Hex(DF,DB,D9,D3,D9,D1,DD,D1), Hex(D1,D0,D7,D0,D8,D9,DE,D8), Hex(D6,D9,DF,DC,DD,D0,D2,D8), Hex(D0,D8,DA,D3,D3,DB,D9,D7)),
    Quad(Hex(D5,DD,DC,D4,D5,DD,D3,D2), Hex(D9,DC,DC,DD,D8,D2,D4,D7), Hex(DD,D8,D7,D2,D1,D0,D4,D8), Hex(D4,D6,DE,DC,DF,DD,D6,DC)))

  const T7 := Square(
    Quad(Hex(D5,D7,DC,D5,DE,D6,DD,DA), Hex(D8,DE,D8,D5,DD,D8,D2,DF), Hex(D4,D3,D4,DB,D4,D7,D4,D9), Hex(D4,D9,DE,DE,D0,D3,DA,D6)),
    Quad(Hex(D3,D5,DC,DE,D4,D6,DA,D8), Hex(DB,D4,D8,D1,D9,DD,D0,D6), Hex(D1,DD,D4,D5,D9,DC,D0,D0), Hex(DD,D1,D1,DA,D5,D5,D5,D4)),
    Quad(Hex(D0,DC,D0,D4,D1,DB,DB,D9), Hex(DB,D6,D3,DB,DE,D2,D0,D0), Hex(D1,D1,D1,DC,DF,DE,D2,DC), Hex(DA,D7,D2,D0,D2,DE,D0,D4)),
    Quad(Hex(DF,DA,D9,D1,DD,DF,D7,D9), Hex(DA,DC,DD,D2,D2,D1,DE,D4), Hex(D5,D5,D9,D4,D2,D6,D0,D4), Hex(D7,DD,D2,D2,D1,D5,DB,DC)))

  const G7 := Square(
    Quad(Hex(D0,DC,D4,D7,D8,D3,DE,D0), Hex(D8,DF,D2,D9,D7,D1,D3,DF), Hex(DA,D7,D7,D9,D6,DF,D9,D1), Hex(D9,D6,D5,DC,D7,D1,D6,D5)),
    Quad(Hex(DE,DC,D0,DA,D2,D8,DA,D8), Hex(D9,D2,D9,DE,D8,D3,D6,D9), Hex(D8,D0,DA,D2,DC,DB,DE,D8), Hex(D2,DB,D0,DE,DA,D5,DE,D4)),
    Quad(Hex(DB,D8,DD,D6,D3,DD,D9,DD), Hex(D6,D9,D0,DF,D1,D0,D0,DC), Hex(DA,DC,D1,D4,DB,D1,D1,D5), Hex(D6,D8,DC,D9,D6,D9,DC,DC)),
    Quad(Hex(D8,D9,D1,D7,DB,D7,DA,D8), Hex(D4,D1,D2,D1,D8,D3,D8,D7), Hex(DB,D6,DF,D1,DC,DA,D3,D7), Hex(D9,D9,DA,DC,D2,DE,D3,D7)))

  const S7 := Square(
    Quad(Hex(D9,DB,D7,D0,DF,D5,D1,DF), Hex(D9,D3,DB,D0,D8,D6,D8,D6), Hex(DD,D8,D3,D9,D1,D6,D5,DE), Hex(DA,D6,D0,D9,DF,D5,D5,D5)),
    Quad(Hex(D7,DE,DA,D8,DA,DC,D1,D1), Hex(D6,DA,D4,DC,D5,D0,DA,DE), Hex(D4,DC,D0,D6,DE,D2,D8,DA), Hex(D2,DC,D2,D4,D6,D5,D4,D9)),
    Quad(Hex(D2,D1,DE,D5,D4,DD,DA,D9), Hex(D1,D9,D2,D1,D2,DA,D5,DA), Hex(DD,D3,DF,DD,DE,D9,D9,DE), Hex(D9,D5,D1,D5,D1,D8,D5,D3)),
    Quad(Hex(DC,DA,D3,D9,D3,DB,D2,DF), Hex(D9,DB,D0,D3,D2,D9,D5,D8), Hex(D2,D6,DA,DC,DC,D1,D3,DD), Hex(D2,DC,D8,D4,D7,DA,D0,DD)))

  const C8 := Square(
    Quad(Hex(D2,DF,D2,D1,D7,DB,DA,D5), Hex(D9,D1,D9,D0,D0,DF,D4,D9), Hex(D6,D7,D2,D9,D9,DF,D8,D6), Hex(D8,DE,DF,D0,D8,D9,D2,D8)),
    Quad(Hex(DE,D8,DF,D4,DF,DC,DB,DF), Hex(D1,DF,D7,DF,D4,D8,DF,DB), Hex(DE,D5,DF,DD,DA,D7,D5,DA), Hex(D9,D9,DF,D6,DC,D4,DD,D0)),
    Quad(Hex(D3,DB,D0,D6,D7,D8,D0,D3), Hex(DF,DB,DD,DE,DB,D2,DD,D6), Hex(D3,D4,D4,DE,D9,D7,DB,D1), Hex(D6,D0,D5,D0,DA,DE,D1,D3)),
    Quad(Hex(D6,D5,D3,DC,D6,D4,D8,D7), Hex(D4,D2,D3,DA,DD,DD,DE,D3), Hex(D4,D5,D3,D7,D0,DA,DF,D5), Hex(D1,DE,D8,DA,D4,D9,DB,D8)))

  const T8 := Square(
    Quad(Hex(DC,D0,DB,D1,D8,DA,DE,DE), Hex(DD,DE,DB,D5,D4,DE,D9,DC), Hex(DA,D8,D2,DD,D6,D5,DD,D4), Hex(D4,D1,D0,D3,DC,D6,D4,DE)),
    Quad(Hex(D0,D8,D7,D4,D4,D5,DB,DA), Hex(D8,D0,D2,DC,D8,D8,D3,DB), Hex(D6,D8,D7,DF,D1,D1,DE,DB), Hex(D8,D2,D8,D1,D6,DA,D9,D1)),
    Quad(Hex(D3,D6,DE,D5,D2,DA,DD,D9), Hex(D0,D6,DE,D8,D6,D8,D8,D9), Hex(DE,D9,DD,D3,D6,D2,D0,D7), Hex(DB,D5,D8,D4,DC,DA,D5,D6)),
    Quad(Hex(DA,D7,D7,D7,D4,D2,D6,DA), Hex(D3,DC,D0,D0,D2,D6,D8,D0), Hex(D4,D2,D4,D2,DD,DD,DA,DE), Hex(DF,DD,D0,DB,DD,D2,DB,D9)))

  const G8 := Square(
    Quad(Hex(D4,D0,DD,DE,D1,D3,D2,D9), Hex(D8,D9,D7,DE,D7,D2,DB,D4), Hex(DA,DB,D6,D4,D1,DF,DD,DC), Hex(DC,D1,D9,D0,DB,DD,DD,D5)),
    Quad(Hex(D0,DF,D5,DC,DA,DE,D4,D3), Hex(D8,D4,D4,D8,D4,DA,DC,DB), Hex(DA,DA,D5,D0,D2,DC,D0,DD), Hex(D6,D8,D0,DD,D4,DE,D5,DF)),
    Quad(Hex(D7,D2,DE,D5,D5,D1,D5,D9), Hex(D6,D7,D0,DB,D8,DD,DF,DF), Hex(DE,D3,DF,D6,D5,D6,D3,D8), Hex(D3,DB,DC,D8,DF,D0,D6,D4)),
    Quad(Hex(D8,D6,D2,DC,D9,D1,D0,D6), Hex(DA,D0,DB,D0,DF,D1,DD,D7), Hex(DC,D3,DC,DF,D4,D5,D9,D3), Hex(D5,DB,D5,D0,D3,D3,DA,D8)))

  const S8 := Square(
    Quad(Hex(DC,DA,D5,DC,D8,D5,DD,DD), Hex(D9,D8,D2,D5,D6,D3,DF,D8), Hex(D1,DC,D2,D5,D9,D3,D1,DA), Hex(DA,D9,DB,D7,D5,D1,DF,DB)),
    Quad(Hex(D9,D3,DA,D4,DF,D9,D0,DE), Hex(D7,D1,D2,DA,DA,D9,DF,DF), Hex(D5,D1,D8,D0,DB,DB,D1,D0), Hex(D3,D8,D2,DF,D3,DC,DE,D2)),
    Quad(Hex(DD,D9,DF,D0,DD,DF,D5,D8), Hex(D2,D7,D9,DA,D6,D1,DE,D8), Hex(D7,D7,D9,DC,D2,D7,DE,D7), Hex(D8,DD,DB,D1,D7,D5,D7,DD)),
    Quad(Hex(D2,D6,DD,DD,D8,D2,DD,DD), Hex(D9,D7,D0,DF,D7,D2,DB,DD), Hex(D5,D4,D0,D7,D7,DE,D0,D8), Hex(DC,DC,D3,D8,D0,D8,D0,DB)))

  const C9 := Square(
    Quad(Hex(D6,D2,D8,D1,DE,D9,DD,D5), Hex(D1,D3,DD,DA,D8,D4,DC,D7), Hex(DD,D4,D5,D4,D5,DE,D5,D0), Hex(DB,D8,D2,DE,DC,DB,D3,D6)),
    Quad(Hex(D0,D4,DC,DF,DA,D3,D0,DD), Hex(D5,D5,DE,D0,DF,D8,D0,D4), Hex(DF,D1,D6,DF,DF,D7,DF,D0), Hex(D9,DF,DE,DF,D3,DC,DE,D0)),
    Quad(Hex(D0,D1,D8,DB,D4,D1,D4,D0), Hex(D3,DD,D5,DC,D9,D8,DC,D4), Hex(DA,DB,DD,D9,DB,D4,D2,D1), Hex(D3,D4,D3,DD,D8,DC,D3,DA)),
    Quad(Hex(DB,DD,DE,DC,DF,D5,D9,DA), Hex(D7,D9,DD,D6,D1,DC,D6,D9), Hex(D5,D1,D9,D8,DE,DF,DD,DC), Hex(DF,DD,D9,D1,D7,D1,DD,D4)))

  const T9 := Square(
    Quad(Hex(D7,D6,D5,DC,D6,DE,D9,DC), Hex(D9,D0,D4,D6,DE,DC,DA,DA), Hex(D4,D6,DF,DA,D0,D9,D1,DE), Hex(D7,D2,DA,D5,DA,DA,DC,DE)),
    Quad(Hex(D5,DA,DB,D0,D9,DB,D1,D1), Hex(D7,DB,D8,D8,DD,D8,D8,D2), Hex(D5,D1,D1,D7,DE,D9,DB,D5), Hex(D5,DF,DA,D7,DF,D1,DC,D5)),
    Quad(Hex(D3,DE,DE,D7,DD,DA,D0,D4), Hex(DB,D9,DB,D5,D7,D7,DD,DD), Hex(D8,D6,D2,DF,DF,D2,D2,DB), Hex(DD,DA,D5,D6,D3,DE,D0,DA)),
    Quad(Hex(D3,D7,DC,D3,D1,D2,D0,D3), Hex(D1,D5,D6,DD,DE,D7,DE,DD), Hex(DA,D3,DF,DC,DC,D7,DA,D6), Hex(D5,D2,D6,D3,DD,D7,DC,DA)))

  const G9 := Square(
    Quad(Hex(DF,D1,DE,D5,D4,D7,D1,DE), Hex(DC,D4,DD,D3,D3,D6,DC,D8), Hex(D1,D7,D0,D4,D9,D5,DB,D1), Hex(D9,D0,DD,D4,DA,D3,D8,D6)),
    Quad(Hex(D1,D4,D6,D6,D1,D2,DE,DE), Hex(D8,D5,D9,DB,D4,DE,D5,DA), Hex(D5,DC,D1,DD,D2,DE,D6,D9), Hex(DB,D8,D2,D0,D6,D6,DC,D3)),
    Quad(Hex(D5,D4,D5,D5,DC,D1,DF,D1), Hex(D3,DF,D2,DF,DD,D6,D2,D4), Hex(D7,D7,D2,DE,D1,D5,D1,D0), Hex(D3,D0,D3,D4,D0,DB,DF,D2)),
    Quad(Hex(DC,D8,D0,D9,DF,DE,DA,DD), Hex(D8,D1,D0,DB,DE,D8,D1,DF), Hex(D1,D1,DB,DE,DF,DC,D1,D4), Hex(DC,D0,DA,D7,D1,D2,D5,DF)))

  const S9 := Square(
    Quad(Hex(DB,D6,DB,D8,D7,DD,DE,D6), Hex(DD,DC,D3,D3,DC,D1,D2,D2), Hex(D2,D8,DC,D1,DF,DC,DB,D3), Hex(D2,D1,D0,D7,D8,DB,D2,D2)),
    Quad(Hex(D9,DA,D0,D1,D6,D1,D4,D8), Hex(D9,D8,DE,D1,D8,DF,DA,D3), Hex(DC,D4,DB,D3,D8,DF,D9,DD), Hex(DB,D1,D9,D3,DE,D7,DA,D3)),
    Quad(Hex(D9,D3,D8,D5,D9,D8,D1,D5), Hex(D5,DF,DF,DB,DE,D8,DF,DC), Hex(D8,D3,DE,D2,DF,D5,DD,D7), Hex(DB,D2,DF,D4,D9,D3,D8,D9)),
    Quad(Hex(D4,D9,D1,D5,DE,D6,DC,DC), Hex(DF,D7,D1,D5,D4,DB,D8,DB), Hex(D7,DD,D2,D4,DB,D9,D8,DB), Hex(D6,DC,DD,DE,D6,D0,D2,D6)))

  const C10 := Square(
    Quad(Hex(D9,D2,DE,DC,D3,DF,D0,D8), Hex(DF,D7,D1,DB,DC,D0,D0,DD), Hex(DD,DC,DE,DC,DB,D0,D9,DE), Hex(DB,D4,D2,DA,DB,D3,DE,DB)),
    Quad(Hex(D3,D2,DE,D2,DF,D0,DE,DB), Hex(DD,D9,DC,DA,DD,D4,D3,D1), Hex(DD,DB,DF,DC,D1,D3,D0,DE), Hex(D1,D7,D4,D8,D8,D3,D7,D1)),
    Quad(Hex(DF,D3,D8,D1,D8,D1,D1,D1), Hex(D0,DD,DF,DB,D0,DC,D9,D8), Hex(D9,D6,D7,DB,D3,D7,D4,DC), Hex(D1,D2,D9,D8,D4,D1,D7,D5)),
    Quad(Hex(D4,D0,D2,DB,D3,D2,D5,D7), Hex(D0,DA,DD,D0,DB,D3,D8,D8), Hex(DC,DF,D9,D5,DE,D6,D8,D0), Hex(D5,D2,D7,D1,D2,DC,DF,D5)))

  const T10 := Square(
    Quad(Hex(D8,DA,D0,D7,DF,DF,D1,D5), Hex(D9,D1,D3,D7,D6,D8,DF,DE), Hex(D0,DA,D3,D9,DA,DE,DD,DC), Hex(D2,DD,D4,DC,DF,DE,D3,DE)),
    Quad(Hex(D0,DC,DA,DD,DC,D5,D1,DC), Hex(D4,D4,D2,DA,D0,DC,D0,DC), Hex(DC,D1,D4,D2,D8,D0,D2,D9), Hex(DE,D5,D4,D6,D6,DD,D1,DB)),
    Quad(Hex(D0,D1,D7,DC,D8,DD,DA,D9), Hex(D5,D9,D8,DF,DE,D3,DB,DB), Hex(D7,DB,D4,D8,D1,D3,D5,DF), Hex(DE,D4,DC,DC,DD,DC,D1,D3)),
    Quad(Hex(D4,DA,DF,DB,DE,D5,DD,DF), Hex(D4,D7,DD,D1,D8,D8,D2,D8), Hex(D5,DA,D5,DF,D1,D0,D9,D8), Hex(D8,DA,DC,D9,D2,DA,D1,D8)))

  const G10 := Square(
    Quad(Hex(DC,DE,D3,D2,D0,DB,D2,D1), Hex(DB,D5,D4,D5,D6,DD,D8,DA), Hex(D9,DC,D8,D1,D5,D8,D5,DA), Hex(D2,D1,D3,D9,D4,D4,DF,DB)),
    Quad(Hex(D6,D6,D3,DD,DA,D8,DD,D7), Hex(D7,DB,DF,DB,D2,DE,D8,DC), Hex(DB,D1,D4,D8,D5,DC,D0,D9), Hex(D5,D6,DE,D9,D4,DB,D7,D1)),
    Quad(Hex(D4,D9,D4,DE,D1,D5,DD,D1), Hex(D5,DD,D2,DC,DC,DC,D4,DD), Hex(D8,D3,D0,D4,D5,DA,DE,D4), Hex(D7,D8,DC,DA,DA,DC,D0,D8)),
    Quad(Hex(DD,DC,D3,D3,D4,DE,DD,DD), Hex(D7,DD,D1,DD,D6,DC,D5,D2), Hex(D5,D4,D1,D0,DB,D9,D2,D8), Hex(D9,D2,DC,DE,D3,D8,DF,DF)))

  const S10 := Square(
    Quad(Hex(D8,D3,D7,D7,D7,D8,DA,DB), Hex(DC,D4,DF,D2,DD,D0,DC,D7), Hex(D3,D3,D5,D2,D7,D1,DC,D2), Hex(DD,D1,D9,DC,D1,D2,DB,D4)),
    Quad(Hex(DE,D2,D3,D8,DD,D7,D6,D3), Hex(DF,DC,D6,D2,DB,DB,D2,DF), Hex(DF,D2,D9,D4,D8,D9,DF,D3), Hex(DB,D0,D4,DE,D1,D6,DD,DE)),
    Quad(Hex(DA,D6,D7,DA,DE,D2,D1,DE), Hex(D8,DF,DA,D0,D1,D8,DF,DC), Hex(DE,DA,DB,DD,DA,D8,DF,DC), Hex(D9,DE,D8,D3,DD,D0,DC,DB)),
    Quad(Hex(D5,D9,D5,D0,DB,DB,D2,DF), Hex(D3,DF,D5,DE,DC,D7,DB,D7), Hex(D8,D2,DE,D4,D6,DE,DB,DD), Hex(D4,DE,D3,DC,D5,D0,DA,D2)))

  /** The sum of the last state and the first. */
  const F := Square(
    Quad(Hex(DE,D4,DE,D7,DF,D1,D1,D0), Hex(DC,D7,DF,D4,DD,D1,DC,D7), Hex(D4,D6,D6,D4,D8,D2,DD,D2), Hex(DD,D1,D9,DC,D1,D2,DB,D5)),
    Quad(Hex(D1,D5,D5,D9,D3,DB,DD,D1), Hex(D0,D3,D6,D8,DC,D0,D3,D3), Hex(D0,D9,DA,DA,D9,DF,D0,D7), Hex(DB,D9,D4,DE,D1,D6,DD,DE)),
    Quad(Hex(D1,DF,DD,DD,D0,DF,D5,D0), Hex(D9,DA,DA,DA,D2,D2,D0,D4), Hex(D0,D5,DD,D7,DC,D2,D1,D4), Hex(DE,D8,D8,D3,DD,D0,DC,DB)),
    Quad(Hex(DC,D4,D7,D1,D2,D0,DA,D3), Hex(D4,DE,D6,DC,DD,D4,DC,D3), Hex(DA,D2,D0,D2,D8,DB,DD,D9), Hex(D4,DE,D3,DC,D5,D0,DA,D2)))

  // ----- Its steps -----

  lemma Column1a() ensures Mixes(S0.v0, C1.v0, T1.v0) { Step(S0.v0, C1.v0, T1.v0); }
  lemma Column1b() ensures Mixes(S0.v1, C1.v1, T1.v1) { Step(S0.v1, C1.v1, T1.v1); }
  lemma Column1c() ensures Mixes(S0.v2, C1.v2, T1.v2) { Step(S0.v2, C1.v2, T1.v2); }
  lemma Column1d() ensures Mixes(S0.v3, C1.v3, T1.v3) { Step(S0.v3, C1.v3, T1.v3); }
  lemma Diagonal1a() ensures Mixes(Slanted(T1).v0, G1.v0, Slanted(S1).v0) { Step(Slanted(T1).v0, G1.v0, Slanted(S1).v0); }
  lemma Diagonal1b() ensures Mixes(Slanted(T1).v1, G1.v1, Slanted(S1).v1) { Step(Slanted(T1).v1, G1.v1, Slanted(S1).v1); }
  lemma Diagonal1c() ensures Mixes(Slanted(T1).v2, G1.v2, Slanted(S1).v2) { Step(Slanted(T1).v2, G1.v2, Slanted(S1).v2); }
  lemma Diagonal1d() ensures Mixes(Slanted(T1).v3, G1.v3, Slanted(S1).v3) { Step(Slanted(T1).v3, G1.v3, Slanted(S1).v3); }

  lemma Double1(state: Square -> seq<word>)
    requires IsState(state)
    ensures Doubled(state(S0), state(T1), state(S1))
  {
    Column1a();
    Column1b();
    Column1c();
    Column1d();
    FourMix(S0, C1, T1);
    Diagonal1a();
    Diagonal1b();
    Diagonal1c();
    Diagonal1d();
    FourMix(Slanted(T1), G1, Slanted(S1));
    DoubleBy(state, S0, C1, T1, G1, S1);
  }

  lemma Column2a() ensures Mixes(S1.v0, C2.v0, T2.v0) { Step(S1.v0, C2.v0, T2.v0); }
  lemma Column2b() ensures Mixes(S1.v1, C2.v1, T2.v1) { Step(S1.v1, C2.v1, T2.v1); }
  lemma Column2c() ensures Mixes(S1.v2, C2.v2, T2.v2) { Step(S1.v2, C2.v2, T2.v2); }
  lemma Column2d() ensures Mixes(S1.v3, C2.v3, T2.v3) { Step(S1.v3, C2.v3, T2.v3); }
  lemma Diagonal2a() ensures Mixes(Slanted(T2).v0, G2.v0, Slanted(S2).v0) { Step(Slanted(T2).v0, G2.v0, Slanted(S2).v0); }
  lemma Diagonal2b() ensures Mixes(Slanted(T2).v1, G2.v1, Slanted(S2).v1) { Step(Slanted(T2).v1, G2.v1, Slanted(S2).v1); }
  lemma Diagonal2c() ensures Mixes(Slanted(T2).v2, G2.v2, Slanted(S2).v2) { Step(Slanted(T2).v2, G2.v2, Slanted(S2).v2); }
  lemma Diagonal2d() ensures Mixes(Slanted(T2).v3, G2.v3, Slanted(S2).v3) { Step(Slanted(T2).v3, G2.v3, Slanted(S2).v3); }

  lemma Double2(state: Square -> seq<word>)
    requires IsState(state)
    ensures Doubled(state(S1), state(T2), state(S2))
  {
    Column2a();
    Column2b();
    Column2c();
    Column2d();
    FourMix(S1, C2, T2);
    Diagonal2a();
    Diagonal2b();
    Diagonal2c();
    Diagonal2d();
    FourMix(Slanted(T2), G2, Slanted(S2));
    DoubleBy(state, S1, C2, T2, G2, S2);
  }

  lemma Column3a() ensures Mixes(S2.v0, C3.v0, T3.v0) { Step(S2.v0, C3.v0, T3.v0); }
  lemma Column3b() ensures Mixes(S2.v1, C3.v1, T3.v1) { Step(S2.v1, C3.v1, T3.v1); }
  lemma Column3c() ensures Mixes(S2.v2, C3.v2, T3.v2) { Step(S2.v2, C3.v2, T3.v2); }
  lemma Column3d() ensures Mixes(S2.v3, C3.v3, T3.v3) { Step(S2.v3, C3.v3, T3.v3); }
  lemma Diagonal3a() ensures Mixes(Slanted(T3).v0, G3.v0, Slanted(S3).v0) { Step(Slanted(T3).v0, G3.v0, Slanted(S3).v0); }
  lemma Diagonal3b() ensures Mixes(Slanted(T3).v1, G3.v1, Slanted(S3).v1) { Step(Slanted(T3).v1, G3.v1, Slanted(S3).v1); }
  lemma Diagonal3c() ensures Mixes(Slanted(T3).v2, G3.v2, Slanted(S3).v2) { Step(Slanted(T3).v2, G3.v2, Slanted(S3).v2); }
  lemma Diagonal3d() ensures Mixes(Slanted(T3).v3, G3.v3, Slanted(S3).v3) { Step(Slanted(T3).v3, G3.v3, Slanted(S3).v3); }

  lemma Double3(state: Square -> seq<word>)
    requires IsState(state)
    ensures Doubled(state(S2), state(T3), state(S3))
  {
    Column3a();
    Column3b();
    Column3c();
    Column3d();
    FourMix(S2, C3, T3);
    Diagonal3a();
    Diagonal3b();
    Diagonal3c();
    Diagonal3d();
    FourMix(Slanted(T3), G3, Slanted(S3));
    DoubleBy(state, S2, C3, T3, G3, S3);
  }

  lemma Column4a() ensures Mixes(S3.v0, C4.v0, T4.v0) { Step(S3.v0, C4.v0, T4.v0); }
  lemma Column4b() ensures Mixes(S3.v1, C4.v1, T4.v1) { Step(S3.v1, C4.v1, T4.v1); }
  lemma Column4c() ensures Mixes(S3.v2, C4.v2, T4.v2) { Step(S3.v2, C4.v2, T4.v2); }
  lemma Column4d() ensures Mixes(S3.v3, C4.v3, T4.v3) { Step(S3.v3, C4.v3, T4.v3); }
  lemma Diagonal4a() ensures Mixes(Slanted(T4).v0, G4.v0, Slanted(S4).v0) { Step(Slanted(T4).v0, G4.v0, Slanted(S4).v0); }
  lemma Diagonal4b() ensures Mixes(Slanted(T4).v1, G4.v1, Slanted(S4).v1) { Step(Slanted(T4).v1, G4.v1, Slanted(S4).v1); }
  lemma Diagonal4c() ensures Mixes(Slanted(T4).v2, G4.v2, Slanted(S4).v2) { Step(Slanted(T4).v2, G4.v2, Slanted(S4).v2); }
  lemma Diagonal4d() ensures Mixes(Slanted(T4).v3, G4.v3, Slanted(S4).v3) { Step(Slanted(T4).v3, G4.v3, Slanted(S4).v3); }

  lemma Double4(state: Square -> seq<word>)
    requires IsState(state)
    ensures Doubled(state(S3), state(T4), state(S4))
  {
    Column4a();
    Column4b();
    Column4c();
    Column4d();
    FourMix(S3, C4, T4);
    Diagonal4a();
    Diagonal4b();
    Diagonal4c();
    Diagonal4d();
    FourMix(Slanted(T4), G4, Slanted(S4));
    DoubleBy(state, S3, C4, T4, G4, S4);
  }

  lemma Column5a() ensures Mixes(S4.v0, C5.v0, T5.v0) { Step(S4.v0, C5.v0, T5.v0); }
  lemma Column5b() ensures Mixes(S4.v1, C5.v1, T5.v1) { Step(S4.v1, C5.v1, T5.v1); }
  lemma Column5c() ensures Mixes(S4.v2, C5.v2, T5.v2) { Step(S4.v2, C5.v2, T5.v2); }
  lemma Column5d() ensures Mixes(S4.v3, C5.v3, T5.v3) { Step(S4.v3, C5.v3, T5.v3); }
  lemma Diagonal5a() ensures Mixes(Slanted(T5).v0, G5.v0, Slanted(S5).v0) { Step(Slanted(T5).v0, G5.v0, Slanted(S5).v0); }
  lemma Diagonal5b() ensures Mixes(Slanted(T5).v1, G5.v1, Slanted(S5).v1) { Step(Slanted(T5).v1, G5.v1, Slanted(S5).v1); }
  lemma Diagonal5c() ensures Mixes(Slanted(T5).v2, G5.v2, Slanted(S5).v2) { Step(Slanted(T5).v2, G5.v2, Slanted(S5).v2); }
  lemma Diagonal5d() ensures Mixes(Slanted(T5).v3, G5.v3, Slanted(S5).v3) { Step(Slanted(T5).v3, G5.v3, Slanted(S5).v3); }

  lemma Double5(state: Square -> seq<word>)
    requires IsState(state)
    ensures Doubled(state(S4), state(T5), state(S5))
  {
    Column5a();
    Column5b();
    Column5c();
    Column5d();
    FourMix(S4, C5, T5);
    Diagonal5a();
    Diagonal5b();
    Diagonal5c();
    Diagonal5d();
    FourMix(Slanted(T5), G5, Slanted(S5));
    DoubleBy(state, S4, C5, T5, G5, S5);
  }

  lemma Column6a() ensures Mixes(S5.v0, C6.v0, T6.v0) { Step(S5.v0, C6.v0, T6.v0); }
  lemma Column6b() ensures Mixes(S5.v1, C6.v1, T6.v1) { Step(S5.v1, C6.v1, T6.v1); }
  lemma Column6c() ensures Mixes(S5.v2, C6.v2, T6.v2) { Step(S5.v2, C6.v2, T6.v2); }
  lemma Column6d() ensures Mixes(S5.v3, C6.v3, T6.v3) { Step(S5.v3, C6.v3, T6.v3); }
  lemma Diagonal6a() ensures Mixes(Slanted(T6).v0, G6.v0, Slanted(S6).v0) { Step(Slanted(T6).v0, G6.v0, Slanted(S6).v0); }
  lemma Diagonal6b() ensures Mixes(Slanted(T6).v1, G6.v1, Slanted(S6).v1) { Step(Slanted(T6).v1, G6.v1, Slanted(S6).v1); }
  lemma Diagonal6c() ensures Mixes(Slanted(T6).v2, G6.v2, Slanted(S6).v2) { Step(Slanted(T6).v2, G6.v2, Slanted(S6).v2); }
  lemma Diagonal6d() ensures Mixes(Slanted(T6).v3, G6.v3, Slanted(S6).v3) { Step(Slanted(T6).v3, G6.v3, Slanted(S6).v3); }

  lemma Double6(state: Square -> seq<word>)
    requires IsState(state)
    ensures Doubled(state(S5), state(T6), state(S6))
  {
    Column6a();
    Column6b();
    Column6c();
    Column6d();
    FourMix(S5, C6, T6);
    Diagonal6a();
    Diagonal6b();
    Diagonal6c();
    Diagonal6d();
    FourMix(Slanted(T6), G6, Slanted(S6));
    DoubleBy(state, S5, C6, T6, G6, S6);
  }

  lemma Column7a() ensures Mixes(S6.v0, C7.v0, T7.v0) { Step(S6.v0, C7.v0, T7.v0); }
  lemma Column7b() ensures Mixes(S6.v1, C7.v1, T7.v1) { Step(S6.v1, C7.v1, T7.v1); }
  lemma Column7c() ensures Mixes(S6.v2, C7.v2, T7.v2) { Step(S6.v2, C7.v2, T7.v2); }
  lemma Column7d() ensures Mixes(S6.v3, C7.v3, T7.v3) { Step(S6.v3, C7.v3, T7.v3); }
  lemma Diagonal7a() ensures Mixes(Slanted(T7).v0, G7.v0, Slanted(S7).v0) { Step(Slanted(T7).v0, G7.v0, Slanted(S7).v0); }
  lemma Diagonal7b() ensures Mixes(Slanted(T7).v1, G7.v1, Slanted(S7).v1) { Step(Slanted(T7).v1, G7.v1, Slanted(S7).v1); }
  lemma Diagonal7c() ensures Mixes(Slanted(T7).v2, G7.v2, Slanted(S7).v2) { Step(Slanted(T7).v2, G7.v2, Slanted(S7).v2); }
  lemma Diagonal7d() ensures Mixes(Slanted(T7).v3, G7.v3, Slanted(S7).v3) { Step(Slanted(T7).v3, G7.v3, Slanted(S7).v3); }

  lemma Double7(state: Square -> seq<word>)
    requires IsState(state)
    ensures Doubled(state(S6), state(T7), state(S7))
  {
    Column7a();
    Column7b();
    Column7c();
    Column7d();
    FourMix(S6, C7, T7);
    Diagonal7a();
    Diagonal7b();
    Diagonal7c();
    Diagonal7d();
    FourMix(Slanted(T7), G7, Slanted(S7));
    DoubleBy(state, S6, C7, T7, G7, S7);
  }

  lemma Column8a() ensures Mixes(S7.v0, C8.v0, T8.v0) { Step(S7.v0, C8.v0, T8.v0); }
  lemma Column8b() ensures Mixes(S7.v1, C8.v1, T8.v1) { Step(S7.v1, C8.v1, T8.v1); }
  lemma Column8c() ensures Mixes(S7.v2, C8.v2, T8.v2) { Step(S7.v2, C8.v2, T8.v2); }
  lemma Column8d() ensures Mixes(S7.v3, C8.v3, T8.v3) { Step(S7.v3, C8.v3, T8.v3); }
  lemma Diagonal8a() ensures Mixes(Slanted(T8).v0, G8.v0, Slanted(S8).v0) { Step(Slanted(T8).v0, G8.v0, Slanted(S8).v0); }
  lemma Diagonal8b() ensures Mixes(Slanted(T8).v1, G8.v1, Slanted(S8).v1) { Step(Slanted(T8).v1, G8.v1, Slanted(S8).v1); }
  lemma Diagonal8c() ensures Mixes(Slanted(T8).v2, G8.v2, Slanted(S8).v2) { Step(Slanted(T8).v2, G8.v2, Slanted(S8).v2); }
  lemma Diagonal8d() ensures Mixes(Slanted(T8).v3, G8.v3, Slanted(S8).v3) { Step(Slanted(T8).v3, G8.v3, Slanted(S8).v3); }

  lemma Double8(state: Square -> seq<word>)
    requires IsState(state)
    ensures Doubled(state(S7), state(T8), state(S8))
  {
    Column8a();
    Column8b();
    Column8c();
    Column8d();
    FourMix(S7, C8, T8);
    Diagonal8a();
    Diagonal8b();
    Diagonal8c();
    Diagonal8d();
    FourMix(Slanted(T8), G8, Slanted(S8));
    DoubleBy(state, S7, C8, T8, G8, S8);
  }

  lemma Column9a() ensures Mixes(S8.v0, C9.v0, T9.v0) { Step(S8.v0, C9.v0, T9.v0); }
  lemma Column9b() ensures Mixes(S8.v1, C9.v1, T9.v1) { Step(S8.v1, C9.v1, T9.v1); }
  lemma Column9c() ensures Mixes(S8.v2, C9.v2, T9.v2) { Step(S8.v2, C9.v2, T9.v2); }
  lemma Column9d() ensures Mixes(S8.v3, C9.v3, T9.v3) { Step(S8.v3, C9.v3, T9.v3); }
  lemma Diagonal9a() ensures Mixes(Slanted(T9).v0, G9.v0, Slanted(S9).v0) { Step(Slanted(T9).v0, G9.v0, Slanted(S9).v0); }
  lemma Diagonal9b() ensures Mixes(Slanted(T9).v1, G9.v1, Slanted(S9).v1) { Step(Slanted(T9).v1, G9.v1, Slanted(S9).v1); }
  lemma Diagonal9c() ensures Mixes(Slanted(T9).v2, G9.v2, Slanted(S9).v2) { Step(Slanted(T9).v2, G9.v2, Slanted(S9).v2); }
  lemma Diagonal9d() ensures Mixes(Slanted(T9).v3, G9.v3, Slanted(S9).v3) { Step(Slanted(T9).v3, G9.v3, Slanted(S9).v3); }

  lemma Double9(state: Square -> seq<word>)
    requires IsState(state)
    ensures Doubled(state(S8), state(T9), state(S9))
  {
    Column9a();
    Column9b();
    Column9c();
    Column9d();
    FourMix(S8, C9, T9);
    Diagonal9a();
    Diagonal9b();
    Diagonal9c();
    Diagonal9d();
    FourMix(Slanted(T9), G9, Slanted(S9));
    DoubleBy(state, S8, C9, T9, G9, S9);
  }

  lemma Column10a() ensures Mixes(S9.v0, C10.v0, T10.v0) { Step(S9.v0, C10.v0, T10.v0); }
  lemma Column10b() ensures Mixes(S9.v1, C10.v1, T10.v1) { Step(S9.v1, C10.v1, T10.v1); }
  lemma Column10c() ensures Mixes(S9.v2, C10.v2, T10.v2) { Step(S9.v2, C10.v2, T10.v2); }
  lemma Column10d() ensures Mixes(S9.v3, C10.v3, T10.v3) { Step(S9.v3, C10.v3, T10.v3); }
  lemma Diagonal10a() ensures Mixes(Slanted(T10).v0, G10.v0, Slanted(S10).v0) { Step(Slanted(T10).v0, G10.v0, Slanted(S10).v0); }
  lemma Diagonal10b() ensures Mixes(Slanted(T10).v1, G10.v1, Slanted(S10).v1) { Step(Slanted(T10).v1, G10.v1, Slanted(S10).v1); }
  lemma Diagonal10c() ensures Mixes(Slanted(T10).v2, G10.v2, Slanted(S10).v2) { Step(Slanted(T10).v2, G10.v2, Slanted(S10).v2); }
  lemma Diagonal10d() ensures Mixes(Slanted(T10).v3, G10.v3, Slanted(S10).v3) { Step(Slanted(T10).v3, G10.v3, Slanted(S10).v3); }

  lemma Double10(state: Square -> seq<word>)
    requires IsState(state)
    ensures Doubled(state(S9), state(T10), state(S10))
  {
    Column10a();
    Column10b();
    Column10c();
    Column10d();
    FourMix(S9, C10, T10);
    Diagonal10a();
    Diagonal10b();
    Diagonal10c();
    Diagonal10d();
    FourMix(Slanted(T10), G10, Slanted(S10));
    DoubleBy(state, S9, C10, T10, G10, S10);
  }

  lemma DoubleBy(state: Square -> seq<word>, s: Square, m: Square, t: Square, g: Square, u: Square)
    requires IsState(state) && AllMix(s, m, t) && AllMix(Slanted(t), g, Slanted(u))
    ensures Doubled(state(s), state(t), state(u))
  {
    DoubleOf(s, m, t, g, u);
  }

  lemma TenRounds(state: Square -> seq<word>, n: nat)
    requires IsState(state) && n == 10
    ensures |state(S0)| == 16 && DoubleRounds(n, state(S0)) == state(S10)
  {
    Double1(state);
    Double2(state);
    Double3(state);
    Double4(state);
    Double5(state);
    Double6(state);
    Double7(state);
    Double8(state);
    Double9(state);
    Double10(state);
    var states := [state(S0), state(S1), state(S2), state(S3), state(S4), state(S5), state(S6), state(S7), state(S8), state(S9), state(S10)];
    var middles := [state(T1), state(T2), state(T3), state(T4), state(T5), state(T6), state(T7), state(T8), state(T9), state(T10)];
    RoundsAre(states, middles, n);
  }

  lemma Start0(num: Hex -> word) requires IsNum(num) ensures num(S0.v0.a) == 0x61707865 { NumBy(S0.v0.a, 6, 1, 7, 0, 7, 8, 6, 5); }
  lemma Start1(num: Hex -> word) requires IsNum(num) ensures num(S0.v1.a) == 0x3320646e { NumBy(S0.v1.a, 3, 3, 2, 0, 6, 4, 6, 14); }
  lemma Start2(num: Hex -> word) requires IsNum(num) ensures num(S0.v2.a) == 0x79622d32 { NumBy(S0.v2.a, 7, 9, 6, 2, 2, 13, 3, 2); }
  lemma Start3(num: Hex -> word) requires IsNum(num) ensures num(S0.v3.a) == 0x6b206574 { NumBy(S0.v3.a, 6, 11, 2, 0, 6, 5, 7, 4); }
  lemma Start4(num: Hex -> word) requires IsNum(num) ensures num(S0.v0.b) == 0x03020100 { NumBy(S0.v0.b, 0, 3, 0, 2, 0, 1, 0, 0); }
  lemma Start5(num: Hex -> word) requires IsNum(num) ensures num(S0.v1.b) == 0x07060504 { NumBy(S0.v1.b, 0, 7, 0, 6, 0, 5, 0, 4); }
  lemma Start6(num: Hex -> word) requires IsNum(num) ensures num(S0.v2.b) == 0x0b0a0908 { NumBy(S0.v2.b, 0, 11, 0, 10, 0, 9, 0, 8); }
  lemma Start7(num: Hex -> word) requires IsNum(num) ensures num(S0.v3.b) == 0x0f0e0d0c { NumBy(S0.v3.b, 0, 15, 0, 14, 0, 13, 0, 12); }
  lemma Start8(num: Hex -> word) requires IsNum(num) ensures num(S0.v0.c) == 0x13121110 { NumBy(S0.v0.c, 1, 3, 1, 2, 1, 1, 1, 0); }
  lemma Start9(num: Hex -> word) requires IsNum(num) ensures num(S0.v1.c) == 0x17161514 { NumBy(S0.v1.c, 1, 7, 1, 6, 1, 5, 1, 4); }
  lemma StartA(num: Hex -> word) requires IsNum(num) ensures num(S0.v2.c) == 0x1b1a1918 { NumBy(S0.v2.c, 1, 11, 1, 10, 1, 9, 1, 8); }
  lemma StartB(num: Hex -> word) requires IsNum(num) ensures num(S0.v3.c) == 0x1f1e1d1c { NumBy(S0.v3.c, 1, 15, 1, 14, 1, 13, 1, 12); }
  lemma StartC(num: Hex -> word) requires IsNum(num) ensures num(S0.v0.d) == 0x00000001 { NumBy(S0.v0.d, 0, 0, 0, 0, 0, 0, 0, 1); }
  lemma StartD(num: Hex -> word) requires IsNum(num) ensures num(S0.v1.d) == 0x09000000 { NumBy(S0.v1.d, 0, 9, 0, 0, 0, 0, 0, 0); }
  lemma StartE(num: Hex -> word) requires IsNum(num) ensures num(S0.v2.d) == 0x4a000000 { NumBy(S0.v2.d, 4, 10, 0, 0, 0, 0, 0, 0); }
  lemma StartF(num: Hex -> word) requires IsNum(num) ensures num(S0.v3.d) == 0x00000000 { NumBy(S0.v3.d, 0, 0, 0, 0, 0, 0, 0, 0); }

  lemma StateBy(state: Square -> seq<word>, num: Hex -> word, s: Square)
    requires IsState(state) && IsNum(num)
    ensures state(s) == [num(s.v0.a), num(s.v1.a), num(s.v2.a), num(s.v3.a), num(s.v0.b), num(s.v1.b), num(s.v2.b), num(s.v3.b),
                         num(s.v0.c), num(s.v1.c), num(s.v2.c), num(s.v3.c), num(s.v0.d), num(s.v1.d), num(s.v2.d), num(s.v3.d)]
  {
    RowsOf(s, 0);
    RowsOf(s, 1);
    RowsOf(s, 2);
    RowsOf(s, 3);
    assert state(s) == State(s);
  }

  lemma StartIs(state: Square -> seq<word>, num: Hex -> word, key: seq<byte>, counter: word, nonce: seq<byte>)
    requires IsState(state) && IsNum(num)
    requires key == seq(32, i => i) && counter == 1 && nonce == [0, 0, 0, 9, 0, 0, 0, 0x4a, 0, 0, 0, 0]
    ensures InitialState(key, counter, nonce) == state(S0)
  {
    SetUp(key, counter, nonce);
    StateBy(state, num, S0);
    Start0(num);
    Start1(num);
    Start2(num);
    Start3(num);
    Start4(num);
    Start5(num);
    Start6(num);
    Start7(num);
    Start8(num);
    Start9(num);
    StartA(num);
    StartB(num);
    StartC(num);
    StartD(num);
    StartE(num);
    StartF(num);
  }

  lemma SetUp(key: seq<byte>, counter: word, nonce: seq<byte>)
    requires key == seq(32, i => i) && counter == 1 && nonce == [0, 0, 0, 9, 0, 0, 0, 0x4a, 0, 0, 0, 0]
    ensures InitialState(key, counter, nonce) == [0x61707865, 0x3320646e, 0x79622d32, 0x6b206574, 0x03020100, 0x07060504, 0x0b0a0908, 0x0f0e0d0c,
      0x13121110, 0x17161514, 0x1b1a1918, 0x1f1e1d1c, 0x00000001, 0x09000000, 0x4a000000, 0x00000000]
  {
    NonceWords(nonce);
    KeyWord(key, 0);
    KeyWord(key, 1);
    KeyWord(key, 2);
    KeyWord(key, 3);
    KeyWord(key, 4);
    KeyWord(key, 5);
    KeyWord(key, 6);
    KeyWord(key, 7);
  }

  lemma Sum0() ensures QuadSums(S10.v0, S0.v0, F.v0) { SumStep(S10.v0, S0.v0, F.v0); }
  lemma Sum1() ensures QuadSums(S10.v1, S0.v1, F.v1) { SumStep(S10.v1, S0.v1, F.v1); }
  lemma Sum2() ensures QuadSums(S10.v2, S0.v2, F.v2) { SumStep(S10.v2, S0.v2, F.v2); }
  lemma Sum3() ensures QuadSums(S10.v3, S0.v3, F.v3) { SumStep(S10.v3, S0.v3, F.v3); }

  lemma SumIs(state: Square -> seq<word>, n: nat)
    requires n == 16 && IsState(state)
    ensures |state(S10)| == |state(S0)| == 16 && Serialize(state(S10), state(S0), n) == AllBytes(F, n)
  {
    Sum0();
    Sum1();
    Sum2();
    Sum3();
    FourSums(S10, S0, F);
    SumBy(state, S10, S0, F, n);
  }

  lemma SumBy(state: Square -> seq<word>, x: Square, s: Square, f: Square, n: nat)
    requires n == 16 && IsState(state) && AllSums(x, s, f)
    ensures |state(x)| == |state(s)| == 16 && Serialize(state(x), state(s), n) == AllBytes(f, n)
  {
    SerializeIs(x, s, f, n);
  }

  /** Section 2.3.2: the block of that key, counter and nonce is the words of F, the lowest byte
      of each first. */
  lemma BlockExample(key: seq<byte>, counter: word, nonce: seq<byte>)
    requires key == seq(32, i => i) && counter == 1 && nonce == [0, 0, 0, 9, 0, 0, 0, 0x4a, 0, 0, 0, 0]
    ensures Block(key, counter, nonce) == AllBytes(F, 16)
  {
    BlockBy((s: Square) => State(s), (w: Hex) => Num(w), key, counter, nonce, 10, 16);
  }

  lemma BlockBy(state: Square -> seq<word>, num: Hex -> word, key: seq<byte>, counter: word, nonce: seq<byte>, rounds: nat, n: nat)
    requires IsState(state) && IsNum(num) && rounds == 10 && n == 16
    requires key == seq(32, i => i) && counter == 1 && nonce == [0, 0, 0, 9, 0, 0, 0, 0x4a, 0, 0, 0, 0]
    ensures Block(key, counter, nonce) == AllBytes(F, n)
  {
    StartIs(state, num, key, counter, nonce);
    TenRounds(state, rounds);
    SumIs(state, n);
  }
}
