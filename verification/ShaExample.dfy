/** The worked example of FIPS 180-4's SHA-256: the digest of "abc", in all its steps. */
module ShaExample {
  import opened Bits
  import opened BlockHash
  import opened HexWords
  import opened HexBits
  import opened Sha256

  /** The eight working variables, by their digits. */
  datatype Work = Work(a: Hex, b: Hex, c: Hex, d: Hex, e: Hex, f: Hex, g: Hex, h: Hex)

  /** What is done to words given by their digits. The proofs below are about any operations that
      do the same, so that each is looked up only where it is needed. */
  datatype Ops = Ops(num: Hex -> word, add: (Hex, Hex) -> Hex, ch: (Hex, Hex, Hex) -> Hex, maj: (Hex, Hex, Hex) -> Hex,
                     big0: Hex -> Hex, big1: Hex -> Hex, small0: Hex -> Hex, small1: Hex -> Hex)

  ghost predicate IsOps(o: Ops)
  {
    && (forall x: Hex {:trigger Num(x)} :: o.num(x) == Num(x))
    && (forall x: Hex, y: Hex {:trigger AddHex(x, y)} :: o.add(x, y) == AddHex(x, y))
    && (forall x: Hex, y: Hex, z: Hex {:trigger ChHex(x, y, z)} :: o.ch(x, y, z) == ChHex(x, y, z))
    && (forall x: Hex, y: Hex, z: Hex {:trigger MajHex(x, y, z)} :: o.maj(x, y, z) == MajHex(x, y, z))
    && (forall x: Hex {:trigger BigSigma0Hex(x)} :: o.big0(x) == BigSigma0Hex(x))
    && (forall x: Hex {:trigger BigSigma1Hex(x)} :: o.big1(x) == BigSigma1Hex(x))
    && (forall x: Hex {:trigger SmallSigma0Hex(x)} :: o.small0(x) == SmallSigma0Hex(x))
    && (forall x: Hex {:trigger SmallSigma1Hex(x)} :: o.small1(x) == SmallSigma1Hex(x))
  }

  function Eights(o: Ops, v: Work): Eight
  {
    Eight(o.num(v.a), o.num(v.b), o.num(v.c), o.num(v.d), o.num(v.e), o.num(v.f), o.num(v.g), o.num(v.h))
  }

  lemma AddOf(o: Ops, x: Hex, y: Hex)
    requires IsOps(o)
    ensures AddWord(o.num(x), o.num(y)) == o.num(o.add(x, y))
  {
    AddIs(x, y);
  }

  lemma BigOf(o: Ops, x: Hex)
    requires IsOps(o)
    ensures BigSigma0(o.num(x)) == o.num(o.big0(x)) && BigSigma1(o.num(x)) == o.num(o.big1(x))
  {
    BigSigma0Is(x);
    BigSigma1Is(x);
  }

  lemma SmallOf(o: Ops, x: Hex)
    requires IsOps(o)
    ensures SmallSigma0(o.num(x)) == o.num(o.small0(x)) && SmallSigma1(o.num(x)) == o.num(o.small1(x))
  {
    SmallSigma0Is(x);
    SmallSigma1Is(x);
  }

  lemma ChoiceOf(o: Ops, x: Hex, y: Hex, z: Hex)
    requires IsOps(o)
    ensures Ch(o.num(x), o.num(y), o.num(z)) == o.num(o.ch(x, y, z)) && Maj(o.num(x), o.num(y), o.num(z)) == o.num(o.maj(x, y, z))
  {
    ChIs(x, y, z);
    MajIs(x, y, z);
  }

  // ----- One round -----

  /** What is added up in a round: sigma, choice and the sums with them, the constant and the
      word; sigma, majority and their sum. */
  datatype Mid = Mid(s1: Hex, ch: Hex, y1: Hex, y2: Hex, y3: Hex, t1: Hex, s0: Hex, mj: Hex, t2: Hex)

  ghost predicate TurnsFirst(o: Ops, v: Work, k: Hex, w: Hex, m: Mid)
  {
    && m.s1 == o.big1(v.e) && m.ch == o.ch(v.e, v.f, v.g) && m.y1 == o.add(v.h, m.s1) && m.y2 == o.add(m.y1, m.ch)
    && m.y3 == o.add(m.y2, k) && m.t1 == o.add(m.y3, w)
  }

  ghost predicate TurnsSecond(o: Ops, v: Work, m: Mid, u: Work)
  {
    && m.s0 == o.big0(v.a) && m.mj == o.maj(v.a, v.b, v.c) && m.t2 == o.add(m.s0, m.mj)
    && u == Work(o.add(m.t1, m.t2), v.a, v.b, v.c, o.add(v.d, m.t1), v.e, v.f, v.g)
  }

  ghost predicate Turns(o: Ops, v: Work, k: Hex, w: Hex, m: Mid, u: Work)
  {
    TurnsFirst(o, v, k, w, m) && TurnsSecond(o, v, m, u)
  }

  lemma First(o: Ops, v: Work, k: Hex, w: Hex, m: Mid)
    requires m.s1 == BigSigma1Hex(v.e)
    requires m.ch == ChHex(v.e, v.f, v.g)
    requires m.y1 == AddHex(v.h, m.s1)
    requires m.y2 == AddHex(m.y1, m.ch)
    requires m.y3 == AddHex(m.y2, k)
    requires m.t1 == AddHex(m.y3, w)
    requires IsOps(o)
    ensures TurnsFirst(o, v, k, w, m)
  {
  }

  lemma Second(o: Ops, v: Work, m: Mid, u: Work)
    requires m.s0 == BigSigma0Hex(v.a)
    requires m.mj == MajHex(v.a, v.b, v.c)
    requires m.t2 == AddHex(m.s0, m.mj)
    requires u.a == AddHex(m.t1, m.t2)
    requires u.e == AddHex(v.d, m.t1)
    requires u.b == v.a && u.c == v.b && u.d == v.c && u.f == v.e && u.g == v.f && u.h == v.g
    requires IsOps(o)
    ensures TurnsSecond(o, v, m, u)
  {
  }

  lemma SumMore(x: nat, y: word, z: word)
    requires z == U32(x)
    ensures AddWord(z, y) == U32(x + y)
  {
  }

  lemma SumOfFive(h: word, s: word, c: word, k: word, w: word, y1: word, y2: word, y3: word, t: word)
    requires y1 == AddWord(h, s) && y2 == AddWord(y1, c) && y3 == AddWord(y2, k) && t == AddWord(y3, w)
    ensures U32(h + s + c + k + w) == t
  {
    SumMore(h + s, c, y1);
    SumMore(h + s + c, k, y2);
    SumMore(h + s + c + k, w, y3);
  }

  lemma FirstSum(o: Ops, v: Work, k: Hex, w: Hex, m: Mid, u: Work)
    requires IsOps(o) && Turns(o, v, k, w, m, u)
    ensures U32(T1(Eights(o, v), o.num(k), o.num(w))) == o.num(m.t1)
  {
    BigOf(o, v.e);
    ChoiceOf(o, v.e, v.f, v.g);
    AddOf(o, v.h, m.s1);
    AddOf(o, m.y1, m.ch);
    AddOf(o, m.y2, k);
    AddOf(o, m.y3, w);
    SumOfFive(o.num(v.h), o.num(m.s1), o.num(m.ch), o.num(k), o.num(w), o.num(m.y1), o.num(m.y2), o.num(m.y3), o.num(m.t1));
  }

  lemma SecondSum(o: Ops, v: Work, k: Hex, w: Hex, m: Mid, u: Work)
    requires IsOps(o) && Turns(o, v, k, w, m, u)
    ensures U32(T2(Eights(o, v))) == o.num(m.t2)
  {
    BigOf(o, v.a);
    ChoiceOf(o, v.a, v.b, v.c);
    AddOf(o, m.s0, m.mj);
  }

  lemma TurnIs(o: Ops, v: Work, k: Hex, w: Hex, m: Mid, u: Work)
    requires IsOps(o) && Turns(o, v, k, w, m, u)
    ensures Round(Eights(o, v), o.num(k), o.num(w)) == Eights(o, u)
  {
    FirstSum(o, v, k, w, m, u);
    SecondSum(o, v, k, w, m, u);
    AddOf(o, m.t1, m.t2);
    AddOf(o, v.d, m.t1);
    RoundBy(Eights(o, v), o.num(k), o.num(w), o.num(m.t1), o.num(m.t2), Eights(o, u));
  }

  lemma RoundBy(v: Eight, k: word, w: word, t1: word, t2: word, u: Eight)
    requires U32(T1(v, k, w)) == t1 && U32(T2(v)) == t2
    requires u == Eight(AddWord(t1, t2), v.a, v.b, v.c, AddWord(v.d, t1), v.e, v.f, v.g)
    ensures Round(v, k, w) == u
  {
    RoundOfSums(v, k, w, T1(v, k, w), T2(v));
    RoundSums(v.d, T1(v, k, w), T2(v), t1, t2);
  }

  lemma RoundOfSums(v: Eight, k: word, w: word, a: nat, b: nat)
    requires a == T1(v, k, w) && b == T2(v)
    ensures Round(v, k, w) == Eight(U32(a + b), v.a, v.b, v.c, U32(v.d + a), v.e, v.f, v.g)
  {
  }

  // ----- One word of the schedule -----

  datatype Next = Next(s0: Hex, s1: Hex, z1: Hex, z2: Hex)

  ghost predicate Extends(o: Ops, w16: Hex, w15: Hex, w7: Hex, w2: Hex, n: Next, w: Hex)
  {
    && n.s0 == o.small0(w15) && n.s1 == o.small1(w2) && n.z1 == o.add(n.s1, w7) && n.z2 == o.add(n.z1, n.s0)
    && w == o.add(n.z2, w16)
  }

  lemma Extend(o: Ops, w16: Hex, w15: Hex, w7: Hex, w2: Hex, n: Next, w: Hex)
    requires n.s0 == SmallSigma0Hex(w15)
    requires n.s1 == SmallSigma1Hex(w2)
    requires n.z1 == AddHex(n.s1, w7)
    requires n.z2 == AddHex(n.z1, n.s0)
    requires w == AddHex(n.z2, w16)
    requires IsOps(o)
    ensures Extends(o, w16, w15, w7, w2, n, w)
  {
  }

  const ZERO := Hex(D0,D0,D0,D0,D0,D0,D0,D0)

  lemma SameDigits(w: Hex, d: Digit)
    requires w == Hex(d, d, d, d, d, d, d, d)
    ensures var e := Down3(d, d); Right7(w) == Hex(e, e, e, e, e, e, e, e) && Right19(w) == Hex(e, e, e, e, e, e, e, e)
    ensures var e := Down2(d, d); Right18(w) == Hex(e, e, e, e, e, e, e, e)
    ensures var e := Down(d, d); Right17(w) == Hex(e, e, e, e, e, e, e, e)
    ensures var e := Down3(d, d); Shift3(w) == Hex(Down3(D0, d), e, e, e, e, e, e, e)
    ensures var e := Down2(d, d); Shift10(w) == Hex(D0, D0, Down2(D0, d), e, e, e, e, e)
  {
  }

  lemma SameSums(x: Hex, d: Digit)
    requires x == Hex(d, d, d, d, d, d, d, d)
    ensures var e := Xor3Digit(d, d, d); Xor3Hex(x, x, x) == Hex(e, e, e, e, e, e, e, e)
  {
  }

  lemma NoSum(d: Digit)
    requires d == D0
    ensures Xor3Digit(d, d, d) == d
  {
  }

  lemma OfZero(d: Digit)
    requires d == D0
    ensures var z := Hex(d, d, d, d, d, d, d, d); SmallSigma0Hex(z) == z && SmallSigma1Hex(z) == z
  {
    DownNone();
    SameDigits(Hex(d, d, d, d, d, d, d, d), d);
    SameSums(Hex(d, d, d, d, d, d, d, d), d);
    NoSum(d);
  }

  lemma ZeroOf(o: Ops, d: Digit)
    requires IsOps(o) && d == D0
    ensures var z := Hex(d, d, d, d, d, d, d, d); o.small0(z) == z && o.small1(z) == z
  {
    OfZero(d);
  }

  /** Where the word fifteen before is zero. */
  lemma ExtendZero(o: Ops, w16: Hex, w15: Hex, w7: Hex, w2: Hex, n: Next, w: Hex)
    requires w15 == ZERO && n.s0 == ZERO
    requires if w2 == ZERO then n.s1 == ZERO else n.s1 == SmallSigma1Hex(w2)
    requires n.z1 == AddHex(n.s1, w7)
    requires n.z2 == AddHex(n.z1, n.s0)
    requires w == AddHex(n.z2, w16)
    requires IsOps(o)
    ensures Extends(o, w16, w15, w7, w2, n, w)
  {
    ZeroOf(o, D0);
  }

  lemma ExtendIs(o: Ops, w16: Hex, w15: Hex, w7: Hex, w2: Hex, n: Next, w: Hex)
    requires IsOps(o) && Extends(o, w16, w15, w7, w2, n, w)
    ensures SmallSigma0(o.num(w15)) == o.num(n.s0) && SmallSigma1(o.num(w2)) == o.num(n.s1)
    ensures U32(o.num(w16) + o.num(n.s0) + o.num(w7) + o.num(n.s1)) == o.num(w)
  {
    SmallOf(o, w15);
    SmallOf(o, w2);
    AddOf(o, n.s1, w7);
    AddOf(o, n.z1, n.s0);
    AddOf(o, n.z2, w16);
    SumMore(o.num(n.s1) + o.num(w7), o.num(n.s0), o.num(n.z1));
    SumMore(o.num(n.s1) + o.num(w7) + o.num(n.s0), o.num(w16), o.num(n.z2));
  }

  // ----- The words of the example -----

  /** The constants; the schedule, and what is added up in it; the working variables a and e
      after each round, those before the first counted from minus four; and what is added up. */
  const K0 := Hex(D4,D2,D8,DA,D2,DF,D9,D8)
  const K1 := Hex(D7,D1,D3,D7,D4,D4,D9,D1)
  const K2 := Hex(DB,D5,DC,D0,DF,DB,DC,DF)
  const K3 := Hex(DE,D9,DB,D5,DD,DB,DA,D5)
  const K4 := Hex(D3,D9,D5,D6,DC,D2,D5,DB)
  const K5 := Hex(D5,D9,DF,D1,D1,D1,DF,D1)
  const K6 := Hex(D9,D2,D3,DF,D8,D2,DA,D4)
  const K7 := Hex(DA,DB,D1,DC,D5,DE,DD,D5)
  const K8 := Hex(DD,D8,D0,D7,DA,DA,D9,D8)
  const K9 := Hex(D1,D2,D8,D3,D5,DB,D0,D1)
  const K10 := Hex(D2,D4,D3,D1,D8,D5,DB,DE)
  const K11 := Hex(D5,D5,D0,DC,D7,DD,DC,D3)
  const K12 := Hex(D7,D2,DB,DE,D5,DD,D7,D4)
  const K13 := Hex(D8,D0,DD,DE,DB,D1,DF,DE)
  const K14 := Hex(D9,DB,DD,DC,D0,D6,DA,D7)
  const K15 := Hex(DC,D1,D9,DB,DF,D1,D7,D4)
  const K16 := Hex(DE,D4,D9,DB,D6,D9,DC,D1)
  const K17 := Hex(DE,DF,DB,DE,D4,D7,D8,D6)
  const K18 := Hex(D0,DF,DC,D1,D9,DD,DC,D6)
  const K19 := Hex(D2,D4,D0,DC,DA,D1,DC,DC)
  const K20 := Hex(D2,DD,DE,D9,D2,DC,D6,DF)
  const K21 := Hex(D4,DA,D7,D4,D8,D4,DA,DA)
  const K22 := Hex(D5,DC,DB,D0,DA,D9,DD,DC)
  const K23 := Hex(D7,D6,DF,D9,D8,D8,DD,DA)
  const K24 := Hex(D9,D8,D3,DE,D5,D1,D5,D2)
  const K25 := Hex(DA,D8,D3,D1,DC,D6,D6,DD)
  const K26 := Hex(DB,D0,D0,D3,D2,D7,DC,D8)
  const K27 := Hex(DB,DF,D5,D9,D7,DF,DC,D7)
  const K28 := Hex(DC,D6,DE,D0,D0,DB,DF,D3)
  const K29 := Hex(DD,D5,DA,D7,D9,D1,D4,D7)
  const K30 := Hex(D0,D6,DC,DA,D6,D3,D5,D1)
  const K31 := Hex(D1,D4,D2,D9,D2,D9,D6,D7)
  const K32 := Hex(D2,D7,DB,D7,D0,DA,D8,D5)
  const K33 := Hex(D2,DE,D1,DB,D2,D1,D3,D8)
  const K34 := Hex(D4,DD,D2,DC,D6,DD,DF,DC)
  const K35 := Hex(D5,D3,D3,D8,D0,DD,D1,D3)
  const K36 := Hex(D6,D5,D0,DA,D7,D3,D5,D4)
  const K37 := Hex(D7,D6,D6,DA,D0,DA,DB,DB)
  const K38 := Hex(D8,D1,DC,D2,DC,D9,D2,DE)
  const K39 := Hex(D9,D2,D7,D2,D2,DC,D8,D5)
  const K40 := Hex(DA,D2,DB,DF,DE,D8,DA,D1)
  const K41 := Hex(DA,D8,D1,DA,D6,D6,D4,DB)
  const K42 := Hex(DC,D2,D4,DB,D8,DB,D7,D0)
  const K43 := Hex(DC,D7,D6,DC,D5,D1,DA,D3)
  const K44 := Hex(DD,D1,D9,D2,DE,D8,D1,D9)
  const K45 := Hex(DD,D6,D9,D9,D0,D6,D2,D4)
  const K46 := Hex(DF,D4,D0,DE,D3,D5,D8,D5)
  const K47 := Hex(D1,D0,D6,DA,DA,D0,D7,D0)
  const K48 := Hex(D1,D9,DA,D4,DC,D1,D1,D6)
  const K49 := Hex(D1,DE,D3,D7,D6,DC,D0,D8)
  const K50 := Hex(D2,D7,D4,D8,D7,D7,D4,DC)
  const K51 := Hex(D3,D4,DB,D0,DB,DC,DB,D5)
  const K52 := Hex(D3,D9,D1,DC,D0,DC,DB,D3)
  const K53 := Hex(D4,DE,DD,D8,DA,DA,D4,DA)
  const K54 := Hex(D5,DB,D9,DC,DC,DA,D4,DF)
  const K55 := Hex(D6,D8,D2,DE,D6,DF,DF,D3)
  const K56 := Hex(D7,D4,D8,DF,D8,D2,DE,DE)
  const K57 := Hex(D7,D8,DA,D5,D6,D3,D6,DF)
  const K58 := Hex(D8,D4,DC,D8,D7,D8,D1,D4)
  const K59 := Hex(D8,DC,DC,D7,D0,D2,D0,D8)
  const K60 := Hex(D9,D0,DB,DE,DF,DF,DF,DA)
  const K61 := Hex(DA,D4,D5,D0,D6,DC,DE,DB)
  const K62 := Hex(DB,DE,DF,D9,DA,D3,DF,D7)
  const K63 := Hex(DC,D6,D7,D1,D7,D8,DF,D2)

  const W0 := Hex(D6,D1,D6,D2,D6,D3,D8,D0)
  const W1 := Hex(D0,D0,D0,D0,D0,D0,D0,D0)
  const W2 := Hex(D0,D0,D0,D0,D0,D0,D0,D0)
  const W3 := Hex(D0,D0,D0,D0,D0,D0,D0,D0)
  const W4 := Hex(D0,D0,D0,D0,D0,D0,D0,D0)
  const W5 := Hex(D0,D0,D0,D0,D0,D0,D0,D0)
  const W6 := Hex(D0,D0,D0,D0,D0,D0,D0,D0)
  const W7 := Hex(D0,D0,D0,D0,D0,D0,D0,D0)
  const W8 := Hex(D0,D0,D0,D0,D0,D0,D0,D0)
  const W9 := Hex(D0,D0,D0,D0,D0,D0,D0,D0)
  const W10 := Hex(D0,D0,D0,D0,D0,D0,D0,D0)
  const W11 := Hex(D0,D0,D0,D0,D0,D0,D0,D0)
  const W12 := Hex(D0,D0,D0,D0,D0,D0,D0,D0)
  const W13 := Hex(D0,D0,D0,D0,D0,D0,D0,D0)
  const W14 := Hex(D0,D0,D0,D0,D0,D0,D0,D0)
  const W15 := Hex(D0,D0,D0,D0,D0,D0,D1,D8)
  const W16 := Hex(D6,D1,D6,D2,D6,D3,D8,D0)
  const W17 := Hex(D0,D0,D0,DF,D0,D0,D0,D0)
  const W18 := Hex(D7,DD,DA,D8,D6,D4,D0,D5)
  const W19 := Hex(D6,D0,D0,D0,D0,D3,DC,D6)
  const W20 := Hex(D3,DE,D9,DD,D7,DB,D7,D8)
  const W21 := Hex(D0,D1,D8,D3,DF,DC,D0,D0)
  const W22 := Hex(D1,D2,DD,DC,DB,DF,DD,DB)
  const W23 := Hex(DE,D2,DE,D2,DC,D3,D8,DE)
  const W24 := Hex(DC,D8,D2,D1,D5,DC,D1,DA)
  const W25 := Hex(DB,D7,D3,D6,D7,D9,DA,D2)
  const W26 := Hex(DE,D5,DB,DC,D3,D9,D0,D9)
  const W27 := Hex(D3,D2,D6,D6,D3,DC,D5,DB)
  const W28 := Hex(D9,DD,D2,D0,D9,DD,D6,D7)
  const W29 := Hex(DE,DC,D8,D7,D2,D6,DC,DB)
  const W30 := Hex(D7,D0,D2,D1,D3,D8,DA,D4)
  const W31 := Hex(DD,D3,DB,D7,D9,D7,D3,DB)
  const W32 := Hex(D9,D3,DF,D5,D9,D9,D7,DF)
  const W33 := Hex(D3,DB,D6,D8,DB,DA,D7,D3)
  const W34 := Hex(DA,DF,DF,D4,DF,DF,DC,D1)
  const W35 := Hex(DF,D1,D0,DA,D5,DC,D6,D2)
  const W36 := Hex(D0,DA,D8,DB,D3,D9,D9,D6)
  const W37 := Hex(D7,D2,DA,DF,D8,D3,D0,DA)
  const W38 := Hex(D9,D4,D0,D9,DE,D3,D3,DE)
  const W39 := Hex(D2,D4,D6,D4,D1,D5,D2,D2)
  const W40 := Hex(D9,DF,D4,D7,DB,DF,D9,D4)
  const W41 := Hex(DF,D0,DA,D6,D4,DF,D5,DA)
  const W42 := Hex(D3,DE,D2,D4,D6,DA,D7,D9)
  const W43 := Hex(D2,D7,D3,D3,D3,DB,DA,D3)
  const W44 := Hex(D0,DC,D4,D7,D6,D3,DF,D2)
  const W45 := Hex(D8,D4,D0,DA,DB,DF,D2,D7)
  const W46 := Hex(D7,DA,D2,D9,D0,DD,D5,DD)
  const W47 := Hex(D0,D6,D5,DC,D4,D3,DD,DA)
  const W48 := Hex(DF,DB,D3,DE,D8,D9,DC,DB)
  const W49 := Hex(DC,DC,D7,D6,D1,D7,DD,DB)
  const W50 := Hex(DB,D9,DE,D6,D6,DC,D3,D4)
  const W51 := Hex(DA,D9,D9,D9,D3,D6,D6,D7)
  const W52 := Hex(D8,D4,DB,DA,DD,DE,DD,DD)
  const W53 := Hex(DC,D2,D1,D4,D6,D2,DB,DC)
  const W54 := Hex(D1,D4,D8,D7,D4,D7,D2,DC)
  const W55 := Hex(DB,D2,D0,DF,D7,DA,D9,D9)
  const W56 := Hex(DE,DF,D5,D7,DB,D9,DC,DD)
  const W57 := Hex(DE,DB,DE,D6,DB,D2,D3,D8)
  const W58 := Hex(D9,DF,DE,D3,D0,D9,D5,DE)
  const W59 := Hex(D7,D8,DB,DC,D8,DD,D4,DB)
  const W60 := Hex(DA,D4,D3,DF,DC,DF,D1,D5)
  const W61 := Hex(D6,D6,D8,DB,D2,DF,DF,D8)
  const W62 := Hex(DE,DE,DA,DB,DA,D2,DC,DC)
  const W63 := Hex(D1,D2,DB,D1,DE,DD,DE,DB)

  const N16 := Next(Hex(D0,D0,D0,D0,D0,D0,D0,D0), Hex(D0,D0,D0,D0,D0,D0,D0,D0), Hex(D0,D0,D0,D0,D0,D0,D0,D0), Hex(D0,D0,D0,D0,D0,D0,D0,D0))
  const N17 := Next(Hex(D0,D0,D0,D0,D0,D0,D0,D0), Hex(D0,D0,D0,DF,D0,D0,D0,D0), Hex(D0,D0,D0,DF,D0,D0,D0,D0), Hex(D0,D0,D0,DF,D0,D0,D0,D0))
  const N18 := Next(Hex(D0,D0,D0,D0,D0,D0,D0,D0), Hex(D7,DD,DA,D8,D6,D4,D0,D5), Hex(D7,DD,DA,D8,D6,D4,D0,D5), Hex(D7,DD,DA,D8,D6,D4,D0,D5))
  const N19 := Next(Hex(D0,D0,D0,D0,D0,D0,D0,D0), Hex(D6,D0,D0,D0,D0,D3,DC,D6), Hex(D6,D0,D0,D0,D0,D3,DC,D6), Hex(D6,D0,D0,D0,D0,D3,DC,D6))
  const N20 := Next(Hex(D0,D0,D0,D0,D0,D0,D0,D0), Hex(D3,DE,D9,DD,D7,DB,D7,D8), Hex(D3,DE,D9,DD,D7,DB,D7,D8), Hex(D3,DE,D9,DD,D7,DB,D7,D8))
  const N21 := Next(Hex(D0,D0,D0,D0,D0,D0,D0,D0), Hex(D0,D1,D8,D3,DF,DC,D0,D0), Hex(D0,D1,D8,D3,DF,DC,D0,D0), Hex(D0,D1,D8,D3,DF,DC,D0,D0))
  const N22 := Next(Hex(D0,D0,D0,D0,D0,D0,D0,D0), Hex(D1,D2,DD,DC,DB,DF,DC,D3), Hex(D1,D2,DD,DC,DB,DF,DD,DB), Hex(D1,D2,DD,DC,DB,DF,DD,DB))
  const N23 := Next(Hex(D0,D0,D0,D0,D0,D0,D0,D0), Hex(D8,D1,D8,D0,D6,D0,D0,DE), Hex(DE,D2,DE,D2,DC,D3,D8,DE), Hex(DE,D2,DE,D2,DC,D3,D8,DE))
  const N24 := Next(Hex(D0,D0,D0,D0,D0,D0,D0,D0), Hex(DC,D8,D1,D2,D5,DC,D1,DA), Hex(DC,D8,D2,D1,D5,DC,D1,DA), Hex(DC,D8,D2,D1,D5,DC,D1,DA))
  const N25 := Next(Hex(D0,D0,D0,D0,D0,D0,D0,D0), Hex(D3,D9,D8,DE,D1,D5,D9,DD), Hex(DB,D7,D3,D6,D7,D9,DA,D2), Hex(DB,D7,D3,D6,D7,D9,DA,D2))
  const N26 := Next(Hex(D0,D0,D0,D0,D0,D0,D0,D0), Hex(D8,D5,DB,DC,D3,D5,D4,D3), Hex(DE,D5,DB,DC,D3,D9,D0,D9), Hex(DE,D5,DB,DC,D3,D9,D0,D9))
  const N27 := Next(Hex(D0,D0,D0,D0,D0,D0,D0,D0), Hex(DF,D3,DC,D8,DC,D0,DE,D3), Hex(D3,D2,D6,D6,D3,DC,D5,DB), Hex(D3,D2,D6,D6,D3,DC,D5,DB))
  const N28 := Next(Hex(D0,D0,D0,D0,D0,D0,D0,D0), Hex(D9,DB,D9,DC,DA,D1,D6,D7), Hex(D9,DD,D2,D0,D9,DD,D6,D7), Hex(D9,DD,D2,D0,D9,DD,D6,D7))
  const N29 := Next(Hex(D0,D0,D0,D0,D0,D0,D0,D0), Hex(DD,D9,DA,DA,D6,D6,DF,D0), Hex(DE,DC,D8,D7,D2,D6,DC,DB), Hex(DE,DC,D8,D7,D2,D6,DC,DB))
  const N30 := Next(Hex(D3,D0,D0,D6,D0,D0,D0,D3), Hex(D5,DD,D3,D8,D7,D5,D1,D3), Hex(D4,D0,D1,DB,D3,D8,DA,D1), Hex(D7,D0,D2,D1,D3,D8,DA,D4))
  const N31 := Next(Hex(D9,D4,D0,DE,D9,D0,DE,DF), Hex(D7,D7,D8,D7,DA,DA,D1,DA), Hex(D3,DF,DA,D9,D0,D6,D3,D4), Hex(DD,D3,DB,D7,D9,D7,D2,D3))
  const N32 := Next(Hex(DC,D0,D0,D1,DF,DE,D0,D3), Hex(DB,DB,D5,DA,DB,DE,D5,DA), Hex(D7,D2,D9,D1,D3,D7,DF,DC), Hex(D3,D2,D9,D3,D3,D5,DF,DF))
  const N33 := Next(Hex(D1,DC,D4,DF,D0,D3,D2,D2), Hex(D3,D9,D4,DE,D7,DE,D4,D8), Hex(D1,DF,D0,DA,DB,D7,D5,D1), Hex(D3,DB,D5,D9,DB,DA,D7,D3))
  const N34 := Next(Hex(D8,D0,D3,D1,D9,D8,D7,DF), Hex(D7,DF,DB,D4,DC,D6,DE,D2), Hex(DB,D2,D1,DB,D0,D3,D3,DD), Hex(D3,D2,D4,DC,D9,DB,DB,DC))
  const N35 := Next(Hex(DA,D9,D7,D0,D9,DA,D3,DE), Hex(D4,DA,D7,D9,D2,D0,DF,D7), Hex(DE,D7,D9,D9,DB,DE,D5,DE), Hex(D9,D1,D0,DA,D5,D8,D9,DC))
  const N36 := Next(Hex(DF,DF,D3,D3,D7,D8,D1,D8), Hex(DE,D0,D3,D3,D1,DF,D3,DB), Hex(DC,DC,DB,DA,D4,D6,D0,D6), Hex(DC,DB,DE,DD,DB,DE,D1,DE))
  const N37 := Next(Hex(D9,DB,D8,D8,DE,DA,D3,D3), Hex(D6,D5,D8,D1,D6,D4,D3,D3), Hex(DD,D5,DA,D2,D9,DC,DD,D7), Hex(D7,D1,D2,DB,D8,D7,D0,DA))
  const N38 := Next(Hex(DB,D1,D7,DA,D2,D5,D4,DE), Hex(DF,DB,DF,DB,D6,D6,DD,DA), Hex(DC,DF,DB,D2,DF,DE,D1,D5), Hex(D8,D1,D2,DD,D2,D3,D6,D3))
  const N39 := Next(Hex(D7,DB,D9,D2,DD,DB,D3,D3), Hex(D3,D1,DF,D8,DD,DC,DE,D2), Hex(DC,D5,DE,DE,D7,D6,D6,D1), Hex(D4,D1,D8,D1,D5,D1,D9,D4))
  const N40 := Next(Hex(DC,DD,DE,D0,D0,DE,D0,DA), Hex(DC,DD,DD,DD,D9,DA,DF,DD), Hex(D0,D9,D4,D6,D5,D5,D7,D0), Hex(DD,D7,D2,D6,D6,D3,D7,DA))
  const N41 := Next(Hex(D0,D1,D3,DE,D8,D6,D3,DC), Hex(D8,D8,D3,DC,D4,DF,DB,DB), Hex(D3,D8,D3,D1,D4,DF,D7,DC), Hex(D3,D9,D6,DF,DD,D5,DB,D8))
  const N42 := Next(Hex(D3,DF,D3,DE,DC,D7,D6,DA), Hex(D2,D8,D1,DF,D0,DD,DA,D4), Hex(D1,D9,D2,D9,D6,DA,D0,D6), Hex(D5,D8,D6,D8,D3,D1,D7,D0))
  const N43 := Next(Hex(DF,DB,DC,D7,DB,D5,DD,DE), Hex(DE,DE,D7,DA,D0,DF,DD,D4), Hex(DF,D9,D0,D5,D4,D9,D6,DA), Hex(DF,D4,DC,DC,DF,DF,D4,D8))
  const N44 := Next(Hex(D4,D3,DF,DB,D1,D1,DB,D5), Hex(DB,D8,D7,DC,D3,D1,DC,DC), Hex(D2,DB,D2,DB,DB,D4,DD,D6), Hex(D6,DF,D2,D6,DC,D6,D8,DB))
  const N45 := Next(Hex(D0,D8,DC,DD,D7,D9,D6,DD), Hex(DF,DA,DA,DC,D3,DB,DB,D1), Hex(D8,DE,DB,D6,D1,DE,DE,DF), Hex(D9,D7,D8,D3,D9,D8,D5,DC))
  const N46 := Next(Hex(D8,D8,D1,DF,D6,D9,D2,D4), Hex(D5,DD,D8,D4,D5,D6,D7,D3), Hex(D8,D1,DE,D8,D6,DB,D9,D5), Hex(D0,DA,D0,D7,DD,D4,DB,D9))
  const N47 := Next(Hex(D8,DB,D0,D6,DB,DC,DE,D0), Hex(D0,D8,D5,D6,D3,D0,D2,DB), Hex(DA,D7,D9,DD,DE,DF,DB,DF), Hex(D3,D2,DA,D4,DA,DC,D9,DF))
  const N48 := Next(Hex(DC,DF,D8,D7,D0,D8,DE,D0), Hex(DA,D7,D1,DB,D9,D8,D1,D2), Hex(D9,D7,DC,D1,DE,D7,D6,DC), Hex(D6,D7,D4,D8,DF,D0,D4,DC))
  const N49 := Next(Hex(DA,D9,D5,D1,D1,DD,DF,DA), Hex(DA,D9,D9,D7,DD,D4,DF,D5), Hex(DE,D7,DB,DC,D3,DF,D6,DE), Hex(D9,D1,D0,DD,D5,DD,D6,D8))
  const N50 := Next(Hex(D4,DC,DD,DB,DE,D3,D7,D6), Hex(D9,D5,DE,D2,D4,DD,D5,DA), Hex(DB,DD,D1,D5,D8,D8,DF,DD), Hex(D0,D9,DF,D1,D6,DC,D7,D3))
  const N51 := Next(Hex(DE,D3,D2,D1,DF,D3,DE,D3), Hex(DC,D9,D2,D5,D8,D2,D3,D0), Hex(DD,D5,D6,DC,DE,D6,D2,D2), Hex(DB,D8,D8,DE,DD,DA,D0,D5))
  const N52 := Next(Hex(DF,DA,D7,D2,D3,D3,DC,DC), Hex(DF,DB,DB,D2,DB,D2,D5,D4), Hex(D7,DF,DB,DD,D7,D1,D7,DB), Hex(D7,DA,D2,DF,DA,D5,D4,D7))
  const N53 := Next(Hex(D1,D7,D6,D6,D8,DA,DA,D3), Hex(DB,DD,DD,D5,D4,D7,DB,D2), Hex(D3,D7,DF,DE,D5,D5,D0,DF), Hex(D4,DF,D6,D4,DD,DF,DB,D2))
  const N54 := Next(Hex(D4,D5,D8,DC,DC,D3,D9,D7), Hex(D3,D4,D9,D4,D5,DC,D7,DD), Hex(D3,DA,DF,D0,DA,D0,D5,D7), Hex(D8,D0,D7,DD,D6,D3,DE,DE))
  const N55 := Next(Hex(DD,D5,D3,D3,D5,DF,D5,DC), Hex(DB,DD,D3,D9,D7,DC,D5,D0), Hex(DB,D8,D7,D8,D0,D6,D1,DB), Hex(D8,DD,DA,DB,D6,D5,D7,D7))
  const N56 := Next(Hex(D3,D8,D2,D3,D3,D9,D5,DC), Hex(D4,DB,D7,D6,DA,D9,D0,D2), Hex(D1,D7,DE,DC,DC,D0,DD,DD), Hex(D5,D0,D0,DF,DF,DA,D3,D9))
  const N57 := Next(Hex(DE,DF,D2,D6,D8,DA,D1,D2), Hex(D5,D2,D3,D3,D6,DC,D9,D8), Hex(D0,DC,D1,D9,DD,D8,DC,DC), Hex(DF,DB,D4,D0,D6,D2,DD,DE))
  const N58 := Next(Hex(D8,DC,D4,D0,DC,D8,DC,DF), Hex(D2,DB,DE,D4,D9,DF,DA,DF), Hex(DD,D5,D7,DD,DD,D6,D1,D6), Hex(D6,D1,DB,DE,D9,DE,DE,D5))
  const N59 := Next(Hex(D3,DD,D6,DC,DE,D1,DA,D8), Hex(D8,DF,D6,D1,D9,D1,D2,D3), Hex(D1,D4,D1,DC,D7,D0,D0,D0), Hex(D5,D1,D8,D9,D5,D1,DA,D8))
  const N60 := Next(Hex(DF,D0,D4,D0,DA,D3,D9,D8), Hex(DE,D5,DA,D3,D6,D4,DC,DF), Hex(DA,D7,DB,D7,DC,D7,D8,DB), Hex(D9,D7,DF,D8,D6,DB,D2,D3))
  const N61 := Next(Hex(DF,D6,DE,D6,D2,DD,D3,DB), Hex(DD,D7,D1,D2,DF,DC,D6,DA), Hex(DE,DB,D9,DA,D4,D3,D9,D6), Hex(DE,D2,D8,D0,D7,D0,DD,D1))
  const N62 := Next(Hex(DA,D4,D3,D1,DB,D1,D6,DB), Hex(D1,DE,D4,D1,D6,D9,D6,DB), Hex(DD,D0,D5,D0,DE,D4,D0,D4), Hex(D7,D4,D8,D2,D9,D5,D6,DF))
  const N63 := Next(Hex(D2,DA,DE,D3,D5,D2,DE,D5), Hex(DF,D2,D1,DA,D9,DD,D5,DF), Hex(DE,D1,D7,D2,D5,D7,D2,DC), Hex(D0,DC,D5,D5,DA,DA,D1,D1))

  const V0 := Work(Hex(D6,DA,D0,D9,DE,D6,D6,D7), Hex(DB,DB,D6,D7,DA,DE,D8,D5), Hex(D3,DC,D6,DE,DF,D3,D7,D2), Hex(DA,D5,D4,DF,DF,D5,D3,DA),
                   Hex(D5,D1,D0,DE,D5,D2,D7,DF), Hex(D9,DB,D0,D5,D6,D8,D8,DC), Hex(D1,DF,D8,D3,DD,D9,DA,DB), Hex(D5,DB,DE,D0,DC,DD,D1,D9))
  const A1 := Hex(D5,DD,D6,DA,DE,DB,DC,DD)
  const E1 := Hex(DF,DA,D2,DA,D4,D6,D2,D2)
  const A2 := Hex(D5,DA,D6,DA,DD,D9,DA,DD)
  const E2 := Hex(D7,D8,DC,DE,D7,D9,D8,D9)
  const A3 := Hex(DC,D8,DC,D3,D4,D7,DA,D7)
  const E3 := Hex(DF,D9,D2,D9,D3,D9,DE,DB)
  const A4 := Hex(DD,D5,D5,D0,DF,D6,D6,D6)
  const E4 := Hex(D2,D4,DE,D0,D0,D8,D5,D0)
  const A5 := Hex(D0,D4,D4,D0,D9,DA,D6,DA)
  const E5 := Hex(D4,D3,DA,DD,DA,D2,D4,D5)
  const A6 := Hex(D2,DB,D4,D2,D0,D9,DF,D5)
  const E6 := Hex(D7,D1,D4,D2,D6,D0,DA,DD)
  const A7 := Hex(DE,D5,D0,D3,D0,D3,D8,D0)
  const E7 := Hex(D9,DB,D2,D7,DA,D4,D0,D1)
  const A8 := Hex(D8,D5,DA,D0,D7,DB,D5,DF)
  const E8 := Hex(D0,DC,D6,D5,D7,DA,D7,D9)
  const A9 := Hex(D8,DE,D0,D4,DE,DC,DB,D9)
  const E9 := Hex(D3,D2,DC,DA,D2,DD,D8,DC)
  const A10 := Hex(D8,DC,D8,D7,D3,D4,D6,DB)
  const E10 := Hex(D1,DC,DC,D9,D2,D5,D9,D6)
  const A11 := Hex(D4,D7,D9,D8,DA,D3,DF,D4)
  const E11 := Hex(D4,D3,D6,DB,D2,D3,DE,D8)
  const A12 := Hex(DF,D7,D1,DF,DC,D5,DA,D9)
  const E12 := Hex(D8,D1,D6,DF,DD,D6,DE,D9)
  const A13 := Hex(D8,D7,D9,D1,D2,D9,D9,D0)
  const E13 := Hex(D1,DE,D5,D7,D8,D2,D1,D8)
  const A14 := Hex(DD,D9,D3,D2,DE,DB,D1,D6)
  const E14 := Hex(D7,D4,D5,DA,D4,D8,DD,DE)
  const A15 := Hex(DC,D0,D6,D4,D5,DF,DD,DE)
  const E15 := Hex(D0,DB,D9,D2,DF,D2,D0,DC)
  const A16 := Hex(DB,D0,DF,DA,D2,D3,D8,DE)
  const E16 := Hex(D0,D7,D5,D9,D0,DD,DC,DD)
  const A17 := Hex(D2,D1,DD,DA,D9,DA,D9,DB)
  const E17 := Hex(D8,D0,D3,D4,D2,D2,D9,DC)
  const A18 := Hex(DC,D2,DF,DB,DD,D9,DD,D1)
  const E18 := Hex(D8,D4,D6,DE,DE,D4,D5,D4)
  const A19 := Hex(DF,DE,D7,D7,D7,DB,DB,DF)
  const E19 := Hex(DC,DC,D8,D9,D9,D9,D6,D1)
  const A20 := Hex(DE,D1,DF,D2,D0,DC,D3,D3)
  const E20 := Hex(DB,D0,D6,D3,D8,D1,D7,D9)
  const A21 := Hex(D9,DD,DC,D6,D8,DB,D6,D3)
  const E21 := Hex(D8,DA,DD,DA,D8,D9,D3,D0)
  const A22 := Hex(DC,D2,D6,D0,D6,DD,D6,DD)
  const E22 := Hex(DE,D1,D2,D5,D7,D9,D7,D0)
  const A23 := Hex(DA,D7,DA,D3,D6,D2,D3,DF)
  const E23 := Hex(D4,D9,DF,D5,D1,D1,D4,DA)
  const A24 := Hex(DC,D5,DD,D5,D3,DD,D8,DD)
  const E24 := Hex(DA,DA,D4,D7,DC,D3,D4,D7)
  const A25 := Hex(D1,DC,D2,DC,D2,D8,D3,D8)
  const E25 := Hex(D2,D8,D2,D3,DE,DF,D9,D1)
  const A26 := Hex(DC,DD,DE,D8,D0,D3,D7,DD)
  const E26 := Hex(D1,D4,D3,D8,D3,DD,D8,DE)
  const A27 := Hex(DB,D6,D2,DE,DC,D4,DB,DC)
  const E27 := Hex(DC,D7,D4,DC,D6,D5,D1,D6)
  const A28 := Hex(D7,D7,DD,D3,D7,D5,D2,D8)
  const E28 := Hex(DE,DD,DF,DF,DB,DF,DF,D8)
  const A29 := Hex(D3,D6,D3,D4,D8,D2,DC,D9)
  const E29 := Hex(D6,D1,D1,D2,DA,D3,DB,D7)
  const A30 := Hex(DA,D0,D0,D6,D0,DB,D3,D0)
  const E30 := Hex(DA,DD,DE,D7,D9,D4,D3,D7)
  const A31 := Hex(DE,DA,D9,D9,D2,DA,D2,D2)
  const E31 := Hex(D0,D1,D0,D9,DA,DB,D3,DA)
  const A32 := Hex(D7,D3,DB,D3,D3,DB,DF,D5)
  const E32 := Hex(DB,DA,D5,D9,D1,D1,D1,D2)
  const A33 := Hex(D9,D8,DE,D1,D2,D5,D0,D7)
  const E33 := Hex(D9,DC,DD,D9,DF,D5,DF,D6)
  const A34 := Hex(DF,DE,D6,D0,D4,DD,DF,D5)
  const E34 := Hex(D5,D9,D2,D4,D9,DD,DD,D3)
  const A35 := Hex(DA,D9,DA,D7,D7,D3,D8,DC)
  const E35 := Hex(D0,D8,D5,DF,D3,D8,D3,D3)
  const A36 := Hex(D6,D5,DA,D0,DC,DF,DE,D4)
  const E36 := Hex(DF,D4,DB,D0,D0,D2,DD,D6)
  const A37 := Hex(D4,D1,DA,D6,D5,DC,DB,D1)
  const E37 := Hex(D0,D7,D7,D2,DA,D2,D6,DB)
  const A38 := Hex(D3,D4,DD,DF,D1,D6,D0,D4)
  const E38 := Hex(DA,D5,D0,D7,DA,D5,D3,DD)
  const A39 := Hex(D6,DD,DC,D5,D7,DA,D8,DA)
  const E39 := Hex(DF,D0,D7,D8,D1,DB,DC,D8)
  const A40 := Hex(D7,D9,DE,DA,D6,D8,D7,DA)
  const E40 := Hex(D1,DE,DF,DB,DC,D0,DA,D0)
  const A41 := Hex(DD,D6,D6,D7,D0,D7,D6,D6)
  const E41 := Hex(D2,D6,D3,D5,D2,DD,D6,D3)
  const A42 := Hex(DD,DF,D4,D6,D6,D5,D2,DF)
  const E42 := Hex(D8,D3,D8,DB,D2,D7,D1,D1)
  const A43 := Hex(D1,D7,DA,DA,D0,DD,DF,DE)
  const E43 := Hex(DD,DE,DC,DD,D4,D7,D1,D5)
  const A44 := Hex(D9,DD,D4,DB,DA,DF,D9,D3)
  const E44 := Hex(DF,DD,DA,D2,D4,DC,D2,DE)
  const A45 := Hex(D2,D6,D6,D2,D8,D8,D1,D5)
  const E45 := Hex(DA,D8,D0,DF,D1,D1,DF,D0)
  const A46 := Hex(D7,D2,DA,DB,D4,DB,D9,D1)
  const E46 := Hex(DB,D7,D7,D5,D5,DD,DA,D1)
  const A47 := Hex(DA,D1,D4,DC,D1,D4,DB,D0)
  const E47 := Hex(DD,D5,D7,DB,D9,D4,DA,D9)
  const A48 := Hex(D4,D1,D7,D2,D3,D2,D8,DD)
  const E48 := Hex(DF,DE,DC,DF,D0,DB,DC,D6)
  const A49 := Hex(D0,D5,D7,D5,D7,DC,DE,DB)
  const E49 := Hex(DB,DD,D7,D1,D4,D0,D3,D8)
  const A50 := Hex(DF,D1,D1,DB,DF,DA,DA,D8)
  const E50 := Hex(D6,DE,D5,DC,D3,D9,D0,DC)
  const A51 := Hex(D7,DA,D0,D5,D0,D8,DA,D1)
  const E51 := Hex(D5,D2,DF,D1,DC,DC,DF,D7)
  const A52 := Hex(D8,D8,D6,DE,D7,DA,D2,D2)
  const E52 := Hex(D4,D9,D2,D3,D1,DC,D1,DE)
  const A53 := Hex(D1,D0,D1,DF,DD,D2,D8,DF)
  const E53 := Hex(D5,D2,D9,DE,D7,DD,D0,D0)
  const A54 := Hex(DF,D5,D7,D0,D2,DF,DD,DB)
  const E54 := Hex(D9,DF,D4,D7,D8,D7,DC,D3)
  const A55 := Hex(D3,DE,DC,D4,D5,DC,DD,DB)
  const E55 := Hex(DE,D5,D0,DE,D1,DB,D4,DF)
  const A56 := Hex(D3,D8,DC,DC,D9,D9,D1,D3)
  const E56 := Hex(D5,D4,DC,DB,D2,D6,D6,DB)
  const A57 := Hex(DF,DC,DD,D1,D8,D8,D7,DB)
  const E57 := Hex(D9,DB,D5,DE,D9,D0,D6,DC)
  const A58 := Hex(DC,D0,D6,D2,DD,D4,D6,DF)
  const E58 := Hex(D7,DE,D4,D4,D0,D0,D8,DE)
  const A59 := Hex(DF,DF,DB,D7,D0,D4,D7,D2)
  const E59 := Hex(D6,DD,D8,D3,DB,DF,DC,D6)
  const A60 := Hex(DB,D6,DA,DE,D8,DF,DF,DF)
  const E60 := Hex(DB,D2,D1,DB,DA,DD,D3,DD)
  const A61 := Hex(DB,D8,D5,DE,D2,DC,DE,D9)
  const E61 := Hex(D9,D6,D1,DF,D4,D8,D9,D4)
  const A62 := Hex(D0,D4,DD,D2,D4,DD,D6,DC)
  const E62 := Hex(D9,D4,D8,DD,D2,D5,DB,D6)
  const A63 := Hex(DD,D3,D9,DA,D2,D1,D6,D5)
  const E63 := Hex(DF,DB,D1,D2,D1,D2,D1,D0)
  const A64 := Hex(D5,D0,D6,DE,D3,D0,D5,D8)
  const E64 := Hex(D5,DE,DF,D5,D0,DF,D2,D4)
  const V1 := Work(A1, V0.a, V0.b, V0.c, E1, V0.e, V0.f, V0.g)
  const V2 := Work(A2, A1, V0.a, V0.b, E2, E1, V0.e, V0.f)
  const V3 := Work(A3, A2, A1, V0.a, E3, E2, E1, V0.e)
  const V4 := Work(A4, A3, A2, A1, E4, E3, E2, E1)
  const V5 := Work(A5, A4, A3, A2, E5, E4, E3, E2)
  const V6 := Work(A6, A5, A4, A3, E6, E5, E4, E3)
  const V7 := Work(A7, A6, A5, A4, E7, E6, E5, E4)
  const V8 := Work(A8, A7, A6, A5, E8, E7, E6, E5)
  const V9 := Work(A9, A8, A7, A6, E9, E8, E7, E6)
  const V10 := Work(A10, A9, A8, A7, E10, E9, E8, E7)
  const V11 := Work(A11, A10, A9, A8, E11, E10, E9, E8)
  const V12 := Work(A12, A11, A10, A9, E12, E11, E10, E9)
  const V13 := Work(A13, A12, A11, A10, E13, E12, E11, E10)
  const V14 := Work(A14, A13, A12, A11, E14, E13, E12, E11)
  const V15 := Work(A15, A14, A13, A12, E15, E14, E13, E12)
  const V16 := Work(A16, A15, A14, A13, E16, E15, E14, E13)
  const V17 := Work(A17, A16, A15, A14, E17, E16, E15, E14)
  const V18 := Work(A18, A17, A16, A15, E18, E17, E16, E15)
  const V19 := Work(A19, A18, A17, A16, E19, E18, E17, E16)
  const V20 := Work(A20, A19, A18, A17, E20, E19, E18, E17)
  const V21 := Work(A21, A20, A19, A18, E21, E20, E19, E18)
  const V22 := Work(A22, A21, A20, A19, E22, E21, E20, E19)
  const V23 := Work(A23, A22, A21, A20, E23, E22, E21, E20)
  const V24 := Work(A24, A23, A22, A21, E24, E23, E22, E21)
  const V25 := Work(A25, A24, A23, A22, E25, E24, E23, E22)
  const V26 := Work(A26, A25, A24, A23, E26, E25, E24, E23)
  const V27 := Work(A27, A26, A25, A24, E27, E26, E25, E24)
  const V28 := Work(A28, A27, A26, A25, E28, E27, E26, E25)
  const V29 := Work(A29, A28, A27, A26, E29, E28, E27, E26)
  const V30 := Work(A30, A29, A28, A27, E30, E29, E28, E27)
  const V31 := Work(A31, A30, A29, A28, E31, E30, E29, E28)
  const V32 := Work(A32, A31, A30, A29, E32, E31, E30, E29)
  const V33 := Work(A33, A32, A31, A30, E33, E32, E31, E30)
  const V34 := Work(A34, A33, A32, A31, E34, E33, E32, E31)
  const V35 := Work(A35, A34, A33, A32, E35, E34, E33, E32)
  const V36 := Work(A36, A35, A34, A33, E36, E35, E34, E33)
  const V37 := Work(A37, A36, A35, A34, E37, E36, E35, E34)
  const V38 := Work(A38, A37, A36, A35, E38, E37, E36, E35)
  const V39 := Work(A39, A38, A37, A36, E39, E38, E37, E36)
  const V40 := Work(A40, A39, A38, A37, E40, E39, E38, E37)
  const V41 := Work(A41, A40, A39, A38, E41, E40, E39, E38)
  const V42 := Work(A42, A41, A40, A39, E42, E41, E40, E39)
  const V43 := Work(A43, A42, A41, A40, E43, E42, E41, E40)
  const V44 := Work(A44, A43, A42, A41, E44, E43, E42, E41)
  const V45 := Work(A45, A44, A43, A42, E45, E44, E43, E42)
  const V46 := Work(A46, A45, A44, A43, E46, E45, E44, E43)
  const V47 := Work(A47, A46, A45, A44, E47, E46, E45, E44)
  const V48 := Work(A48, A47, A46, A45, E48, E47, E46, E45)
  const V49 := Work(A49, A48, A47, A46, E49, E48, E47, E46)
  const V50 := Work(A50, A49, A48, A47, E50, E49, E48, E47)
  const V51 := Work(A51, A50, A49, A48, E51, E50, E49, E48)
  const V52 := Work(A52, A51, A50, A49, E52, E51, E50, E49)
  const V53 := Work(A53, A52, A51, A50, E53, E52, E51, E50)
  const V54 := Work(A54, A53, A52, A51, E54, E53, E52, E51)
  const V55 := Work(A55, A54, A53, A52, E55, E54, E53, E52)
  const V56 := Work(A56, A55, A54, A53, E56, E55, E54, E53)
  const V57 := Work(A57, A56, A55, A54, E57, E56, E55, E54)
  const V58 := Work(A58, A57, A56, A55, E58, E57, E56, E55)
  const V59 := Work(A59, A58, A57, A56, E59, E58, E57, E56)
  const V60 := Work(A60, A59, A58, A57, E60, E59, E58, E57)
  const V61 := Work(A61, A60, A59, A58, E61, E60, E59, E58)
  const V62 := Work(A62, A61, A60, A59, E62, E61, E60, E59)
  const V63 := Work(A63, A62, A61, A60, E63, E62, E61, E60)
  const V64 := Work(A64, A63, A62, A61, E64, E63, E62, E61)

  const M0 := Mid(Hex(D3,D5,D8,D7,D2,D7,D2,DB), Hex(D1,DF,D8,D5,DC,D9,D8,DC), Hex(D9,D1,D6,D7,DF,D4,D4,D4),
                    Hex(DB,D0,DE,DD,DB,DD,DD,D0), Hex(DF,D3,D7,D7,DE,DD,D6,D8), Hex(D5,D4,DD,DA,D5,D0,DE,D8),
                    Hex(DC,DE,D2,D0,DB,D4,D7,DE), Hex(D3,DA,D6,DF,DE,D6,D6,D7), Hex(D0,D8,D9,D0,D9,DA,DE,D5))
  const M1 := Mid(Hex(D5,DA,D9,D4,DF,DD,D2,DD), Hex(D5,D1,D0,DF,D6,DA,DA,DE), Hex(D7,DA,D1,D8,DD,D6,DD,D8),
                    Hex(DC,DB,D2,D8,D4,D1,D8,D6), Hex(D3,DC,D5,DF,D8,D6,D1,D7), Hex(D3,DC,D5,DF,D8,D6,D1,D7),
                    Hex(DA,D2,D9,DF,D6,D4,DD,D1), Hex(D7,DB,D6,DB,DE,DE,DC,D5), Hex(D1,DE,D0,DB,D5,D3,D9,D6))
  const M2 := Mid(Hex(D7,D3,DF,D0,DE,D4,D9,D5), Hex(D7,D9,D0,DA,D4,D2,D7,D6), Hex(D0,DE,DF,D6,D4,DD,D2,D1),
                    Hex(D8,D8,D0,D0,D8,DF,D9,D7), Hex(D3,DD,DC,D1,D8,DB,D6,D6), Hex(D3,DD,DC,D1,D8,DB,D6,D6),
                    Hex(D3,D0,D9,D6,DD,D0,D5,D4), Hex(D5,DA,D6,DA,DE,DB,DE,DD), Hex(D8,DB,D0,D1,DB,DC,D4,D1))
  const M3 := Mid(Hex(D0,D6,D0,D7,D7,D4,D3,DC), Hex(D7,DA,D0,DA,D7,DF,D8,D9), Hex(D5,D7,D1,D5,DC,D6,DB,DB),
                    Hex(DD,D1,D2,D0,D4,D6,D4,D4), Hex(DB,DA,DD,D6,D2,D1,DE,D9), Hex(DB,DA,DD,D6,D2,D1,DE,D9),
                    Hex(DC,D2,D1,D0,D0,D8,DD,D0), Hex(D5,D8,D6,DA,DC,DB,DA,DD), Hex(D1,DA,D7,DA,DD,D4,D7,DD))
  const M4 := Mid(Hex(D3,DA,D9,D3,D3,D4,D3,D2), Hex(D7,D8,D2,DE,D7,D9,DC,D9), Hex(D3,D4,DB,DD,D7,DA,D5,D4),
                    Hex(DA,DC,DE,DB,DF,D4,D1,DD), Hex(DE,D6,D4,D2,DB,D6,D7,D8), Hex(DE,D6,D4,D2,DB,D6,D7,D8),
                    Hex(D4,D5,DB,DB,D0,DC,D4,DB), Hex(DD,D8,D4,D2,DD,D7,DA,D7), Hex(D1,DD,DF,DD,DE,D3,DF,D2))
  const M5 := Mid(Hex(D8,DB,D7,D7,DE,D1,D9,DC), Hex(DB,D8,DA,D0,D1,D9,DE,DA), Hex(D0,D4,D4,D6,D5,DB,D2,D5),
                    Hex(DB,DC,DE,D6,D7,D5,D0,DF), Hex(D1,D6,DD,D7,D8,D7,D0,D0), Hex(D1,D6,DD,D7,D8,D7,D0,D0),
                    Hex(D5,D0,D2,D9,DA,DC,D8,DF), Hex(DC,D4,D4,D0,DD,D6,D6,D6), Hex(D1,D4,D6,DA,D8,D2,DF,D5))
  const M6 := Mid(Hex(D0,D1,D5,DB,D7,D7,D7,D6), Hex(D4,D5,DA,D0,D2,D8,D5,D5), Hex(DF,DA,D8,D4,DB,D1,D6,D1),
                    Hex(D4,D0,D2,D4,DD,D9,DB,D6), Hex(DD,D2,D6,D4,D5,DC,D5,DA), Hex(DD,D2,D6,D4,D5,DC,D5,DA),
                    Hex(D0,DD,D5,DE,D0,DC,DC,D0), Hex(D0,D5,D4,D0,D9,DA,D6,D6), Hex(D1,D2,D9,DE,DA,D7,D2,D6))
  const M7 := Mid(Hex(D1,D5,D8,DD,DF,DA,DA,D9), Hex(D5,D1,D8,DA,D2,D2,D4,D5), Hex(D3,DA,D6,DE,D0,D2,DF,D9),
                    Hex(D8,DB,DF,D8,D2,D5,D3,DE), Hex(D3,D7,D1,D4,D8,D4,D1,D3), Hex(D3,D7,D1,D4,D8,D4,D1,D3),
                    Hex(D2,D9,D4,D9,DE,DB,D6,DC), Hex(D2,D5,D4,D2,D0,DB,DE,D0), Hex(D4,DE,D8,DB,DF,D7,D4,DC))
  const M8 := Mid(Hex(D9,D9,DA,DD,D2,D5,DC,D0), Hex(D7,D9,D2,D7,D2,D0,D8,D5), Hex(DD,DD,D5,DA,DC,D8,D0,D5),
                    Hex(D5,D6,D8,D1,DE,D8,D8,DA), Hex(D2,DE,D8,D9,D9,D3,D2,D2), Hex(D2,DE,D8,D9,D9,D3,D2,D2),
                    Hex(DB,DA,D7,D9,D4,DD,DC,D2), Hex(DA,D5,D0,D2,D0,DB,DD,D5), Hex(D5,DF,D7,DB,D5,D9,D9,D7))
  const M9 := Mid(Hex(DE,D4,D5,DB,DB,D7,DE,DA), Hex(D8,D9,D6,D5,DA,D8,D0,D9), Hex(D5,D5,D9,DE,D1,D8,D9,D7),
                    Hex(DD,DF,D0,D3,DC,D0,DA,D0), Hex(DF,D1,D8,D7,D1,DB,DA,D1), Hex(DF,D1,D8,D7,D1,DB,DA,D1),
                    Hex(D1,D5,DF,DF,DA,DD,D3,D1), Hex(D8,D5,D0,D0,D6,DB,D9,D9), Hex(D9,DB,D0,D0,D1,D8,DC,DA))
  const M10 := Mid(Hex(D8,DE,D2,D2,D7,D6,DB,DC), Hex(D1,D0,DE,DC,D7,DF,DE,DD), Hex(D2,D9,D4,DA,D1,DA,DB,DD),
                    Hex(D3,DA,D3,D6,D9,DA,DA,DA), Hex(D5,DE,D6,D8,D2,D0,D6,D8), Hex(D5,DE,D6,D8,D2,D0,D6,D8),
                    Hex(D5,DC,DA,DC,D0,D7,D1,D1), Hex(D8,DC,D8,D4,D7,DC,D7,DB), Hex(DE,D9,D3,D0,D8,D3,D8,DC))
  const M11 := Mid(Hex(D6,D9,D9,D4,D3,D5,DC,DA), Hex(D3,D0,DC,D9,D2,DD,D8,D4), Hex(D7,D5,DF,D9,DB,D0,D4,D3),
                    Hex(DA,D6,DC,D2,DD,DD,DC,D7), Hex(DF,DB,DC,DF,D5,DB,D8,DA), Hex(DF,DB,DC,DF,D5,DB,D8,DA),
                    Hex(D6,DC,DC,DB,DC,D5,D2,D6), Hex(D8,DE,D8,D4,DA,D4,DF,D9), Hex(DF,DB,D5,D0,D6,DA,D1,DF))
  const M12 := Mid(Hex(DC,DC,DD,DE,DE,D6,D6,D1), Hex(D1,DD,DE,DB,D2,D3,DF,DE), Hex(DF,DF,DA,D9,D1,D3,DE,DD),
                    Hex(D1,DD,D9,D4,D3,D7,DE,DB), Hex(D9,D0,D5,D2,D9,D5,D5,DF), Hex(D9,D0,D5,D2,D9,D5,D5,DF),
                    Hex(D2,DF,D9,DE,DE,DE,D4,D8), Hex(DC,D7,D9,DF,DA,D5,DE,D9), Hex(DF,D7,D3,DE,D9,D4,D3,D1))
  const M13 := Mid(Hex(D0,D8,DB,DB,D9,D8,DF,D7), Hex(D4,D1,D6,DF,DA,D3,DE,D8), Hex(D2,D5,D8,D4,DB,DE,D8,DD),
                    Hex(D6,D6,DF,D4,D6,D2,D7,D5), Hex(DE,D7,DD,D3,D1,D4,D7,D3), Hex(DE,D7,DD,D3,D1,D4,D7,D3),
                    Hex(D2,D9,DC,D6,D3,D4,DF,D3), Hex(DC,D7,D9,D9,DA,D1,DB,D0), Hex(DF,D1,D5,DF,DD,D6,DA,D3))
  const M14 := Mid(Hex(D4,DF,D3,DB,D8,DD,D5,D0), Hex(D9,D5,D7,D7,D9,D6,D3,D9), Hex(D9,D2,DA,D6,DB,D1,D3,D8),
                    Hex(D2,D8,D1,DE,D4,D7,D7,D1), Hex(DC,D3,DF,DA,D4,DE,D1,D8), Hex(DC,D3,DF,DA,D4,DE,D1,D8),
                    Hex(D2,D5,D5,D6,D2,D8,D3,D6), Hex(DD,D7,D1,D3,DE,D9,D9,D0), Hex(DF,DC,D6,DA,D1,D1,DC,D6))
  const M15 := Mid(Hex(DB,D8,DD,D6,D3,DF,D9,D3), Hex(D1,D4,D5,D7,D4,D0,D1,DC), Hex(D3,DA,D4,D6,D1,D6,D7,DC),
                    Hex(D4,DE,D9,DD,D5,D6,D9,D8), Hex(D1,D0,D3,D9,D4,D8,D0,DC), Hex(D1,D0,D3,D9,D4,D8,D2,D4),
                    Hex(DD,DF,D9,D0,D6,DF,DD,D4), Hex(DC,D1,D3,D0,D6,DB,D9,D6), Hex(DA,D0,DC,D0,DD,DB,D6,DA))
  const M16 := Mid(Hex(D2,D1,D3,DB,D6,D9,D9,D5), Hex(D7,D3,D1,D2,D4,D0,D1,DE), Hex(D3,DF,D9,D2,DE,DB,DA,DD),
                    Hex(DB,D2,DA,D5,D2,DB,DC,DB), Hex(D9,D7,D4,D0,D9,D5,D8,DC), Hex(DF,D8,DA,D2,DF,D9,D0,DC),
                    Hex(D5,D8,DC,D5,D3,D5,DF,D1), Hex(DD,D0,D7,D2,D6,DB,D9,DE), Hex(D2,D9,D3,D7,DA,D1,D8,DF))
  const M17 := Mid(Hex(D3,DB,D8,D1,D9,D8,D4,DE), Hex(D0,DB,D9,D2,DD,D0,D8,DC), Hex(DA,DF,DD,DB,DE,D1,D2,DC),
                    Hex(DB,DB,D6,DE,DB,D1,DB,D8), Hex(DA,DB,D2,DC,DF,D9,D3,DE), Hex(DA,DB,D3,DB,DF,D9,D3,DE),
                    Hex(D7,D6,DC,D5,DC,D4,DF,D5), Hex(DA,D0,DF,DA,D1,DB,D9,DE), Hex(D1,D7,DB,DF,DE,D0,D9,D3))
  const M18 := Mid(Hex(DE,DF,DF,D3,D1,DC,D0,DF), Hex(D8,D3,D3,D5,D2,D9,D9,DD), Hex(DF,DB,D8,D6,D0,DE,D1,DB),
                    Hex(D7,DE,DB,DB,D3,D7,DB,D8), Hex(D8,DE,D7,DC,DD,D5,D7,DE), Hex(D0,DC,D2,D5,D3,D9,D8,D3),
                    Hex(D5,D1,D5,D7,DA,D6,DA,D1), Hex(DA,D0,DF,DA,D9,DB,D9,DB), Hex(DF,D2,D5,D2,D4,D2,D3,DC))
  const M19 := Mid(Hex(DE,DF,DC,D7,D0,D7,DB,D0), Hex(D8,D4,D3,DC,DA,D2,DD,DC), Hex(DF,D7,D2,D0,D1,D5,D7,DD),
                    Hex(D7,DB,D5,DC,DB,D8,D5,D9), Hex(D9,DF,D6,D9,D5,DA,D2,D5), Hex(DF,DF,D6,D9,D5,DD,DE,DB),
                    Hex(DF,DF,D8,DC,DD,D2,DA,DD), Hex(DE,D2,DF,DB,DD,DB,D9,DB), Hex(DE,D2,D8,D8,DA,DE,D4,D8))
  const M20 := Mid(Hex(DF,D8,D3,D7,D3,DE,DA,DD), Hex(D8,D4,D0,DD,DE,D5,D6,D5), Hex(D7,D8,D6,DB,D6,D1,D4,D9),
                    Hex(DF,DC,D7,D9,D4,D6,DA,DE), Hex(D2,DA,D6,D2,D7,D3,D1,DD), Hex(D6,D8,DF,DF,DE,DE,D9,D5),
                    Hex(D5,D1,DD,D3,D4,D3,D1,DB), Hex(DE,D2,DF,D3,D5,D9,DB,D3), Hex(D3,D4,DC,D6,D9,DC,DC,DE))
  const M21 := Mid(Hex(D8,D9,D7,DE,DA,D9,D3,D0), Hex(DC,D4,D4,D3,D9,D1,D7,D1), Hex(D0,DD,DE,DD,D8,DD,D8,D4),
                    Hex(DD,D2,D3,D1,D1,DE,DF,D5), Hex(D1,DC,DA,D5,DA,D3,D9,DF), Hex(D1,DE,D2,D9,D9,DF,D9,DF),
                    Hex(DA,D6,D4,D0,DC,D2,D9,DB), Hex(DF,DD,DF,D6,D0,DB,D3,D3), Hex(DA,D4,D3,D6,DC,DD,DC,DE))
  const M22 := Mid(Hex(D7,DF,D2,D4,D0,D9,D3,DA), Hex(D9,D0,D4,D2,D8,D9,D3,D9), Hex(D4,DB,DA,DD,DA,D2,D9,DB),
                    Hex(DD,DB,DF,D0,D2,DB,DD,D4), Hex(D3,D8,DA,D0,DD,D5,DB,D0), Hex(D4,DB,D7,DD,D9,D5,D8,DB),
                    Hex(D9,DA,D4,D3,DB,DF,D5,D1), Hex(DC,D1,DE,D2,D0,DD,D6,D3), Hex(D5,DC,D2,D5,DC,DC,DB,D4))
  const M23 := Mid(Hex(DF,DA,DE,D6,D4,DF,DC,D3), Hex(DC,D3,D2,DF,D9,D9,D7,D0), Hex(DA,DB,D4,D9,DD,D1,D3,DC),
                    Hex(D6,DE,D7,D9,D6,DA,DA,DC), Hex(DE,D5,D7,D2,DF,D3,D8,D6), Hex(DC,D8,D5,D5,DB,D7,D1,D4),
                    Hex(D7,D5,D9,DD,D1,DB,D0,DA), Hex(D8,D7,DE,D2,D6,DB,D6,DF), Hex(DF,DD,D7,DF,D8,D6,D7,D9))
  const M24 := Mid(Hex(D5,D5,DB,DD,DF,D4,D2,D0), Hex(D4,D9,D6,D5,D3,D9,D7,D2), Hex(DE,D0,D9,D8,D7,DD,D5,D0),
                    Hex(D2,D9,DF,DD,DB,D6,DC,D2), Hex(DC,D2,D3,DC,D0,D8,D1,D4), Hex(D8,DA,D5,DD,D6,D4,D2,DE),
                    Hex(DC,D9,DE,DD,D5,D6,DD,DD), Hex(DC,D7,DE,D1,D6,DD,D2,DD), Hex(D9,D1,DC,DE,DC,D4,D0,DA))
  const M25 := Mid(Hex(DA,D7,D7,D2,D4,D3,D5,D7), Hex(D6,D9,DD,D7,DD,D3,D4,DB), Hex(D8,D8,D9,D7,DB,DC,DC,D7),
                    Hex(DF,D2,D6,DF,D9,D0,D1,D2), Hex(D9,DA,DA,D1,D5,D6,D7,DF), Hex(D5,D1,DD,D7,DD,D0,D2,D1),
                    Hex(DF,D6,D6,DB,D0,DB,D1,DF), Hex(D8,D5,DA,D5,D2,D8,D3,DD), Hex(D7,DC,D1,D0,D3,D3,D5,DC))
  const M26 := Mid(Hex(D9,D5,D8,DC,DA,D0,DF,DB), Hex(DA,DA,D6,D7,DE,DF,DC,D1), Hex(DD,DF,D8,D1,DB,D2,D4,D5),
                    Hex(D8,D9,DE,D9,DA,D2,D0,D6), Hex(D3,D9,DE,DC,DC,D9,DC,DE), Hex(D1,DF,DA,D9,D0,D2,DD,D7),
                    Hex(DC,D8,D9,D9,D9,D8,DA,D8), Hex(DC,DD,DE,DC,D2,D9,D3,DD), Hex(D9,D6,D8,D5,DC,D1,DE,D5))
  const M27 := Mid(Hex(D5,DF,DF,D7,D5,D3,D7,DB), Hex(D2,DC,D2,DB,DA,DF,D8,D7), Hex(D0,DA,D3,DF,D1,D6,DC,D2),
                    Hex(D3,D6,D6,DA,DC,D6,D4,D9), Hex(DF,D5,DC,D4,D4,D6,D1,D0), Hex(D2,D8,D2,DA,D8,D2,D6,DB),
                    Hex(DB,D3,D7,DC,DF,D2,D8,D1), Hex(D9,DC,D2,DC,D0,D0,D3,DC), Hex(D4,DF,DA,D8,DF,D2,DB,DD))
  const M28 := Mid(Hex(DE,D3,D7,D5,DB,DD,D7,DE), Hex(DD,D5,D4,DC,D2,D5,D1,D6), Hex(D0,DB,D9,D9,DA,DD,D0,DF),
                    Hex(DE,D0,DE,D5,DD,D2,D2,D5), Hex(DA,D7,DC,D5,DD,DE,D1,D8), Hex(D4,D4,DE,D6,D7,DB,D7,DF),
                    Hex(DF,D9,D6,D3,DC,D2,D0,DE), Hex(DF,D7,DE,DA,D4,D5,D3,DC), Hex(DF,D1,D4,DE,D0,D7,D4,DA))
  const M29 := Mid(Hex(D2,D2,D3,D9,DB,D3,D6,DA), Hex(DE,D7,D5,DE,DE,D7,DB,D0), Hex(D3,D6,D7,D1,DF,D0,DF,D8),
                    Hex(D1,DD,DD,D0,DD,D8,DA,D8), Hex(DF,D3,D7,D8,D6,D9,DE,DF), Hex(DD,DF,DF,DF,D9,D0,DB,DA),
                    Hex(D8,D9,DC,DF,DB,D5,DC,DE), Hex(D3,D6,D3,D6,DC,D4,DA,D8), Hex(DC,D0,D0,D6,D7,DA,D7,D6))
  const M30 := Mid(Hex(DA,DB,D8,D8,D3,D9,D7,D4), Hex(D6,D1,D1,DA,DA,DB,DF,DF), Hex(D7,D2,DD,D4,D9,DE,D8,DA),
                    Hex(DD,D3,DE,DF,D4,DA,D8,D9), Hex(DD,DA,DB,D9,DA,DD,DD,DA), Hex(D4,DA,DD,DA,DE,D6,D7,DE),
                    Hex(D6,D9,DA,D8,D4,D0,D7,DC), Hex(D3,D6,D1,D6,D0,D3,D2,D8), Hex(D9,DF,DB,DE,D4,D3,DA,D4))
  const M31 := Mid(Hex(D0,DB,D9,D1,D9,DA,D9,D9), Hex(D6,D1,D1,D3,D8,D0,DB,D7), Hex(DF,D9,D9,D1,D5,DA,D9,D1),
                    Hex(D5,DA,DA,D4,DD,DB,D4,D8), Hex(D6,DE,DC,DE,D0,D4,DA,DF), Hex(D4,D2,D8,D5,D9,DB,DE,DA),
                    Hex(D8,DF,D1,D9,D9,D5,DE,DB), Hex(DA,D2,D1,D4,D0,DA,D2,D0), Hex(D3,D1,D2,DD,DA,D0,D0,DB))
  const M32 := Mid(Hex(D4,D4,D3,D6,DA,D6,D3,DB), Hex(D0,D5,DA,DF,D8,D5,D3,D7), Hex(DA,D5,D4,D9,D4,D9,DF,D2),
                    Hex(DA,DA,DF,D8,DC,DF,D2,D9), Hex(DD,D2,DA,DF,DD,D9,DA,DE), Hex(D6,D6,DA,D5,D7,D3,D2,DD),
                    Hex(D4,DF,DA,D8,D8,D6,DA,DA), Hex(DE,D2,D9,D3,D2,DB,D3,D0), Hex(D3,D2,D3,DB,DB,D1,DD,DA))
  const M33 := Mid(Hex(D0,D8,D5,DA,D0,D7,DA,D7), Hex(D9,D9,D5,D9,D1,DB,D1,DA), Hex(DB,D6,D4,D1,D9,DB,DD,DE),
                    Hex(D4,DF,D9,DA,DB,D6,DF,D8), Hex(D7,DD,DB,D5,DD,D8,D3,D0), Hex(DB,D9,D1,DE,D9,D2,DA,D3),
                    Hex(D4,DA,D9,D0,D9,D0,D2,DB), Hex(DF,DA,DB,D1,D2,DB,D2,D7), Hex(D4,D5,D4,D1,DB,DB,D5,D2))
  const M34 := Mid(Hex(D6,D5,D4,D1,D5,DF,D4,D8), Hex(DB,DA,D5,D9,D9,D5,DD,D2), Hex(D6,D6,D4,DB,D0,DA,D8,D2),
                    Hex(D2,D0,DA,D4,DA,D0,D5,D4), Hex(D6,DD,DD,D1,D0,DE,D5,D0), Hex(D1,DD,DC,D6,D0,DE,D1,D1),
                    Hex(D9,D1,D0,D0,D3,D7,D8,D6), Hex(DF,DA,DE,D1,D2,DD,DF,D5), Hex(D8,DB,DE,D1,D6,D5,D7,DB))
  const M35 := Mid(Hex(DE,D5,DD,DC,D6,DE,D8,D3), Hex(D9,DC,D8,D4,DD,DD,DD,D7), Hex(DA,D0,D3,D5,D7,DF,D9,D5),
                    Hex(D3,DC,DB,DA,D5,DD,D6,DC), Hex(D8,DF,DF,D2,D6,DA,D7,DF), Hex(D8,D0,DF,DC,DC,D6,DE,D1),
                    Hex(D2,DB,DC,D2,DA,D3,D7,DE), Hex(DB,D8,DE,D1,D6,D5,D8,D5), Hex(DE,D4,DA,D4,D0,D9,D0,D3))
  const M36 := Mid(Hex(D5,D9,D0,DD,D3,DD,D7,D1), Hex(D0,D9,D1,D4,D9,DD,D1,D3), Hex(DF,D5,DE,D7,D3,D3,D6,D7),
                    Hex(DF,DE,DF,DB,DD,D0,D7,DA), Hex(D6,D4,D0,D6,D4,D3,DC,DE), Hex(D6,DE,D9,D1,D7,DD,D6,D4),
                    Hex(DE,D5,D7,D4,D8,DF,D6,D9), Hex(DE,DD,DA,D0,D4,DF,DE,D4), Hex(DD,D3,D1,D4,DD,DF,D4,DD))
  const M37 := Mid(Hex(D5,D8,D2,DC,D1,D1,D5,DE), Hex(D0,DC,D3,DD,D1,DA,D5,D2), Hex(DB,D1,D5,D0,DA,DF,D3,D1),
                    Hex(DB,DD,D8,DD,DC,D9,D8,D3), Hex(D3,D3,DF,D7,DD,D4,D3,DE), Hex(DA,D6,DA,D7,D5,D7,D4,D8),
                    Hex(D2,DC,D9,D1,D5,DF,D1,D8), Hex(D6,D1,DA,D6,D5,DF,DA,D4), Hex(D8,DE,D3,D7,DB,DE,DB,DC))
  const M38 := Mid(Hex(DD,D2,DF,D2,D2,D0,DB,D2), Hex(D5,D5,DB,D2,DA,D2,DE,DB), Hex(DD,DB,D5,D1,D5,D8,DE,D5),
                    Hex(D3,D1,D0,D3,DF,DB,DD,D0), Hex(DB,D2,DC,D6,DC,D4,DF,DE), Hex(D4,D6,DD,D0,DA,D8,D3,DC),
                    Hex(DC,D1,D4,DE,D7,D3,DA,DA), Hex(D6,D5,DA,D6,D5,DE,DA,D4), Hex(D2,D6,DF,D4,DD,D2,D4,DE))
  const M39 := Mid(Hex(D6,D6,DD,D2,D0,DB,D1,D4), Hex(DA,D7,D0,D2,DA,D1,D2,DB), Hex(D5,DB,D8,D2,D0,DD,DE,DA),
                    Hex(D0,D2,D8,D4,DA,DF,D1,D5), Hex(D9,D4,DF,D6,DD,DB,D9,DA), Hex(DB,D9,D5,DA,DF,D0,DB,DC),
                    Hex(D5,DA,DC,D8,D1,D9,D3,DE), Hex(D6,D5,DC,D7,D5,DE,D8,D0), Hex(DC,D0,D8,DF,D7,D7,DB,DE))
  const M40 := Mid(Hex(DE,D9,D9,D8,D6,D0,D7,D5), Hex(DB,D1,D7,DC,D2,D5,D9,DD), Hex(DF,D1,D0,DB,D0,D2,DE,D0),
                    Hex(DA,D2,D8,D7,D2,D8,D7,DD), Hex(D4,D5,D4,D7,D1,D1,D1,DE), Hex(DE,D4,D8,DE,DD,D0,DB,D2),
                    Hex(D7,D4,D0,D8,DB,DC,DA,DA), Hex(D7,DD,DC,DF,D7,DA,D0,DA), Hex(DF,D1,DD,D8,D3,D6,DB,D4))
  const M41 := Mid(Hex(D3,DA,D6,DA,DA,D3,D8,D3), Hex(DD,D6,D7,D9,D1,D2,DA,D8), Hex(DD,DF,D7,D2,D4,D8,DC,D0),
                    Hex(DB,D5,DE,DB,D5,DB,D6,D8), Hex(D5,DE,D0,D5,DC,D1,DB,D3), Hex(D4,DE,DA,DC,D1,D1,D0,DD),
                    Hex(D1,D2,DB,D2,DE,D9,DB,D8), Hex(D7,DD,DE,D7,D6,DA,D6,DA), Hex(D9,D0,D9,DA,D5,D4,D2,D2))
  const M42 := Mid(Hex(D6,D1,DA,DD,DD,D5,D3,D9), Hex(D1,DE,D7,D1,DE,D5,DA,D1), Hex(D5,D2,D2,D5,DF,D1,D0,D1),
                    Hex(D7,D0,D9,D7,DD,D6,DA,D2), Hex(D3,D2,DE,D3,D6,D2,D1,D2), Hex(D7,D1,D0,D7,DC,DC,D8,DB),
                    Hex(DC,D7,D3,DB,DD,DC,D0,D5), Hex(DD,DF,D6,D6,D6,D5,D6,DE), Hex(DA,D6,DA,D2,D4,D1,D7,D3))
  const M43 := Mid(Hex(DD,D3,D6,D3,D6,D6,D5,DB), Hex(DA,D2,DB,D9,D2,DF,D7,D3), Hex(DF,D2,D5,DF,D2,D6,DF,DB),
                    Hex(D9,D5,D1,D8,D5,D6,D6,DE), Hex(D5,DC,D8,D4,DA,D8,D1,D1), Hex(D8,D3,DB,D7,DE,D3,DB,D4),
                    Hex(D4,D2,D2,DD,DC,D6,D7,D1), Hex(DD,D7,D6,D6,D0,D5,D6,DE), Hex(D1,D9,D9,D3,DC,DB,DD,DF))
  const M44 := Mid(Hex(DE,DF,D0,DF,D2,DA,D0,D7), Hex(DD,DE,D8,D9,D6,D7,D1,D5), Hex(D1,D5,D4,D4,D5,D7,D6,DA),
                    Hex(DF,D3,DC,DD,DB,DE,D7,DF), Hex(DC,D5,D6,D0,DA,D6,D9,D8), Hex(DD,D1,DA,D8,D0,DA,D8,DA),
                    Hex(DB,D5,D7,D0,D4,DF,DC,DC), Hex(D9,DF,D4,DA,D2,DD,DB,DF), Hex(D5,D4,DB,DA,D7,DD,D8,DB))
  const M45 := Mid(Hex(DF,DB,D3,DD,DC,D5,DF,D1), Hex(DF,DE,DC,D2,D4,D6,D2,D5), Hex(D7,DE,DC,D8,DE,DD,D0,D2),
                    Hex(D7,DD,D8,DB,D3,D3,D2,D7), Hex(D5,D4,D2,D4,D3,D9,D4,DB), Hex(DD,D8,D2,DE,DF,D8,D7,D2),
                    Hex(D8,D3,D1,D1,DC,D5,D8,D8), Hex(D1,D7,D6,DA,D8,DD,D9,D7), Hex(D9,DA,D7,DC,D5,D3,D1,DF))
  const M46 := Mid(Hex(D8,D8,D4,D5,DE,DB,D0,D6), Hex(DE,D8,D8,D7,D1,D1,DA,DE), Hex(D6,D7,D1,D3,D3,D2,D1,DB),
                    Hex(D4,DF,D9,DA,D4,D3,DC,D9), Hex(D4,D3,DA,D8,D7,D9,D4,DE), Hex(DB,DD,DD,D1,D8,D6,DA,DB),
                    Hex(DA,DD,D0,DF,D0,D2,D7,D4), Hex(D3,D6,D6,DB,D8,DB,D9,D1), Hex(DE,D3,D7,DA,D8,DE,D0,D5))
  const M47 := Mid(Hex(D8,DF,DA,D5,D1,D5,DC,DA), Hex(DB,DD,D7,D5,D1,D5,DF,D1), Hex(D8,DD,D4,D7,D6,D1,DF,D8),
                    Hex(D4,DA,DB,DC,D7,D7,DE,D9), Hex(D5,DB,D2,D7,D1,D8,D5,D9), Hex(D6,D1,D8,D3,D5,DC,D3,D3),
                    Hex(DB,DD,D8,D4,DC,DD,DC,D9), Hex(D2,D2,D6,DA,D0,D8,D9,D1), Hex(DD,DF,DE,DE,DD,D6,D5,DA))
  const M48 := Mid(Hex(D0,D4,DA,D1,D0,D6,DB,D1), Hex(DD,D5,D7,DB,D5,D4,DA,D1), Hex(DA,DC,DB,D0,D1,D8,DA,D1),
                    Hex(D8,D2,D2,DB,D6,DD,D4,D2), Hex(D9,DB,DD,D0,D2,DE,D5,D8), Hex(D9,D7,D0,DE,DB,D8,D2,D3),
                    Hex(D0,DC,DF,DC,DB,D2,D3,D7), Hex(D6,D1,D6,DA,D1,D2,D9,D1), Hex(D6,DE,D6,D6,DC,D4,DC,D8))
  const M49 := Mid(Hex(D5,DD,D4,D2,D7,D7,D7,D6), Hex(DF,DC,D4,DB,D9,D4,D8,D1), Hex(D1,D4,DB,D7,DD,D5,D1,D7),
                    Hex(D1,D1,D0,D3,D6,D9,D9,D8), Hex(D2,DF,D3,DA,DD,D5,DA,D0), Hex(DF,DB,DB,D0,DE,DD,D7,DB),
                    Hex(DF,D3,DF,D6,DD,D8,D8,D4), Hex(D0,D1,D7,D4,D3,D4,DA,D9), Hex(DF,D5,D6,DB,D0,DD,D2,DD))
  const M50 := Mid(Hex(D3,DE,D2,D8,D3,DD,D5,D4), Hex(DB,DC,DD,D3,D0,D2,DC,DA), Hex(D1,D3,DA,D3,DD,D1,DF,DD),
                    Hex(DD,D0,D7,D6,DD,D4,DC,D7), Hex(DF,D7,DB,DF,D4,DC,D1,D3), Hex(DB,D1,DA,D5,DB,D8,D4,D7),
                    Hex(D8,D6,DE,DB,DD,D5,DB,D1), Hex(D4,D1,D7,D3,D7,DA,DA,D9), Hex(DC,D8,D5,DF,D5,D0,D5,DA))
  const M51 := Mid(Hex(D3,DB,D4,D7,DE,D2,DA,D3), Hex(DE,DF,D5,D0,D0,D8,D0,DC), Hex(D3,DA,D1,D6,DE,DE,D6,D9),
                    Hex(D2,D9,D6,D6,DF,D6,D7,D5), Hex(D5,DE,D1,D7,DB,D3,D2,DA), Hex(D0,D7,DB,D0,DE,D9,D9,D1),
                    Hex(D0,DF,DA,D8,D1,D7,DE,D8), Hex(D7,D1,D1,D5,D7,D8,DA,D9), Hex(D8,D0,DB,DD,D9,D0,D9,D1))
  const M52 := Mid(Hex(D6,DB,D6,D3,DA,D7,D3,D7), Hex(D6,D6,D7,DD,D2,DD,D1,D6), Hex(D2,D8,DD,D4,DE,D7,D6,DF),
                    Hex(D8,DF,D5,D2,D1,D4,D8,D5), Hex(DC,D8,D6,DE,D2,D1,D3,D8), Hex(D4,DD,D2,D9,D0,D0,D1,D5),
                    Hex(DC,DA,DE,D7,D5,D7,DD,DA), Hex(DF,D8,D0,DF,D7,DA,DA,D0), Hex(DC,D2,DF,D6,DD,D2,D7,DA))
  const M53 := Mid(Hex(DE,DE,D7,DE,DA,DA,D1,D2), Hex(D4,D0,D6,D3,D9,DC,DF,D7), Hex(D5,DC,DD,DA,DE,D3,D1,DE),
                    Hex(D9,DD,D3,DE,D8,D0,D1,D5), Hex(DE,DC,D1,D7,D2,DA,D5,DF), Hex(DA,DE,D2,DB,D8,DD,D1,DB),
                    Hex(D2,DF,D3,D5,D4,D8,D1,DD), Hex(D1,D8,D0,DF,D5,DA,DA,D3), Hex(D4,D7,D4,D4,DA,D2,DC,D0))
  const M54 := Mid(Hex(D5,D5,DC,DD,D1,D7,D2,D0), Hex(D5,D2,D2,D6,D1,DD,D1,DC), Hex(DA,D8,DB,DE,DE,D4,D1,D7),
                    Hex(DF,DA,DE,D5,D0,D1,D3,D3), Hex(D5,D6,D8,D1,DC,DB,D8,D2), Hex(D6,DB,D0,D9,D1,D2,DA,DE),
                    Hex(D4,D3,D3,DC,DC,DF,DA,D2), Hex(D9,D0,D7,DE,D7,DA,D8,DB), Hex(DD,D3,DB,DB,D4,DA,D2,DD))
  const M55 := Mid(Hex(DD,D1,D6,D5,D3,DE,D5,DC), Hex(D9,D7,D9,D6,D6,D7,D4,D3), Hex(D1,DA,D8,D8,D5,DA,D7,DA),
                    Hex(DB,D2,D1,DE,DC,D1,DB,DD), Hex(D1,DA,D4,DD,D3,D1,DB,D0), Hex(DC,DC,D5,DC,DA,DC,D4,D9),
                    Hex(D3,D8,D1,DB,D8,DD,DE,DF), Hex(D3,D4,D5,D4,D5,DE,DD,DB), Hex(D6,DC,D6,DF,DE,DC,DC,DA))
  const M56 := Mid(Hex(D0,D5,DA,DA,D8,D0,D5,D7), Hex(DC,DF,D0,DE,D8,D3,DC,DB), Hex(D5,D8,D4,D8,DF,DD,D5,D7),
                    Hex(D2,D7,D5,D7,D8,D1,D2,D2), Hex(D9,DB,DE,D7,D0,D4,D1,D0), Hex(D8,DB,D3,DE,DB,DD,DD,DD),
                    Hex(D3,D4,DC,DE,DA,DC,DC,D3), Hex(D3,DC,DC,D4,D1,DD,DD,DB), Hex(D7,D1,D9,D2,DC,DA,D9,DE))
  const M57 := Mid(Hex(D1,D0,DB,D6,D2,D7,DD,DE), Hex(D7,D4,D4,DA,D0,DB,D6,DB), Hex(DA,DF,DF,DD,DA,DF,DA,D1),
                    Hex(D2,D4,D4,D7,DB,DB,D0,DC), Hex(D9,DC,DE,DD,D1,DE,D7,DB), Hex(D8,D8,DD,D3,DD,D0,DB,D3),
                    Hex(DF,DA,DC,DA,D6,DB,D6,D1), Hex(D3,DC,DC,D4,D9,D8,D5,DB), Hex(D3,D7,D8,DF,D0,D3,DB,DC))
  const M58 := Mid(Hex(D0,DA,D3,D6,D9,DF,DB,DD), Hex(D1,DA,DC,DF,D2,D6,D6,DD), Hex(DE,DF,D4,D4,DB,DB,D0,DC),
                    Hex(D0,DA,D1,D3,DE,D1,D7,D9), Hex(D8,DE,DD,DC,D5,D9,D8,DD), Hex(D2,DE,DB,DF,D6,D2,DE,DB),
                    Hex(DD,D8,D3,D7,D0,D9,D0,DC), Hex(DF,D8,DC,D0,D9,D8,D7,DB), Hex(DD,D0,DF,D7,DA,D1,D8,D7))
  const M59 := Mid(Hex(D2,D0,DA,D4,D5,DD,DB,DE), Hex(DF,DE,D5,DC,D0,D0,DA,DE), Hex(D7,D5,D6,DF,D8,D4,D2,D9),
                    Hex(D7,D3,DC,DB,D8,D4,DD,D7), Hex(D0,D0,D9,D2,D8,D6,DD,DF), Hex(D7,D9,D4,DF,D1,D4,D2,DA),
                    Hex(D4,D0,D6,DB,DF,D7,D5,DA), Hex(DF,DC,DF,D3,D8,D4,D7,DB), Hex(D3,DD,D5,DF,D7,DB,DD,D5))
  const M60 := Mid(Hex(D5,DC,DA,D8,DB,D3,D1,D8), Hex(D6,DC,D4,D7,DA,DD,D8,D6), Hex(DF,D8,D0,D7,D4,D3,D8,D4),
                    Hex(D6,D4,D4,DE,DF,D1,D0,DA), Hex(DF,D5,D0,DD,DF,D1,D0,D4), Hex(D9,D9,D4,DD,DC,D0,D1,D9),
                    Hex(D2,D8,D6,D9,DE,D8,D5,D1), Hex(DF,D6,DA,D6,D8,D4,D7,DF), Hex(D1,DF,D1,D0,D6,DC,DD,D0))
  const M61 := Mid(Hex(D4,DF,D6,DE,DF,D4,D8,D0), Hex(DF,DB,D9,DB,DB,DF,D5,D6), Hex(DC,DD,DB,D2,DF,D5,D0,DE),
                    Hex(DC,D9,D4,DE,DB,D4,D6,D4), Hex(D6,DD,D9,DF,D2,D1,D4,DF), Hex(DD,D4,D2,DA,D5,D1,D4,D7),
                    Hex(D7,D1,DE,D9,DE,DF,D2,DA), Hex(DB,DE,DB,DE,D0,DC,DF,DB), Hex(D3,D0,DA,D7,DF,DC,D2,D5))
  const M62 := Mid(Hex(D2,DA,D1,D2,D7,DE,D7,D8), Hex(DB,D6,D1,DF,D8,D8,D9,DD), Hex(D9,D7,D9,D6,D3,DE,D3,DE),
                    Hex(D4,DD,DB,D5,DC,D6,DD,DB), Hex(D0,DC,DA,DF,D6,DA,DD,D2), Hex(DF,DB,D5,DB,D0,DD,D9,DE),
                    Hex(D2,D3,D6,D1,D0,D5,DD,DA), Hex(DB,D4,DD,DE,D0,DD,DE,DD), Hex(DD,D8,D3,DF,D1,D3,DC,D7))
  const M63 := Mid(Hex(D8,D8,DF,DA,D2,D2,D7,D7), Hex(D9,D4,D0,DD,D4,D8,D9,D4), Hex(D3,DB,D1,D5,DC,DF,DB,D4),
                    Hex(DC,DF,D2,D3,D1,D8,D4,D8), Hex(D9,D5,D9,D4,D9,D1,D3,DA), Hex(DA,D8,D4,D6,D7,DF,D2,D5),
                    Hex(D1,D7,D4,DD,D8,D3,DC,D6), Hex(D9,D0,DD,DA,D2,DD,D6,DD), Hex(DA,D8,D2,D7,DB,D1,D3,D3))

  const SUM := Work(Hex(DB,DA,D7,D8,D1,D6,DB,DF), Hex(D8,DF,D0,D1,DC,DF,DE,DA), Hex(D4,D1,D4,D1,D4,D0,DD,DE), Hex(D5,DD,DA,DE,D2,D2,D2,D3),
                    Hex(DB,D0,D0,D3,D6,D1,DA,D3), Hex(D9,D6,D1,D7,D7,DA,D9,DC), Hex(DB,D4,D1,D0,DF,DF,D6,D1), Hex(DF,D2,D0,D0,D1,D5,DA,DD))

  // ----- Its steps -----

  lemma Word16(o: Ops) requires IsOps(o) ensures Extends(o, W0, W1, W9, W14, N16, W16) { ExtendZero(o, W0, W1, W9, W14, N16, W16); }
  lemma Word17(o: Ops) requires IsOps(o) ensures Extends(o, W1, W2, W10, W15, N17, W17) { ExtendZero(o, W1, W2, W10, W15, N17, W17); }
  lemma Word18(o: Ops) requires IsOps(o) ensures Extends(o, W2, W3, W11, W16, N18, W18) { ExtendZero(o, W2, W3, W11, W16, N18, W18); }
  lemma Word19(o: Ops) requires IsOps(o) ensures Extends(o, W3, W4, W12, W17, N19, W19) { ExtendZero(o, W3, W4, W12, W17, N19, W19); }
  lemma Word20(o: Ops) requires IsOps(o) ensures Extends(o, W4, W5, W13, W18, N20, W20) { ExtendZero(o, W4, W5, W13, W18, N20, W20); }
  lemma Word21(o: Ops) requires IsOps(o) ensures Extends(o, W5, W6, W14, W19, N21, W21) { ExtendZero(o, W5, W6, W14, W19, N21, W21); }
  lemma Word22(o: Ops) requires IsOps(o) ensures Extends(o, W6, W7, W15, W20, N22, W22) { ExtendZero(o, W6, W7, W15, W20, N22, W22); }
  lemma Word23(o: Ops) requires IsOps(o) ensures Extends(o, W7, W8, W16, W21, N23, W23) { ExtendZero(o, W7, W8, W16, W21, N23, W23); }
  lemma Word24(o: Ops) requires IsOps(o) ensures Extends(o, W8, W9, W17, W22, N24, W24) { ExtendZero(o, W8, W9, W17, W22, N24, W24); }
  lemma Word25(o: Ops) requires IsOps(o) ensures Extends(o, W9, W10, W18, W23, N25, W25) { ExtendZero(o, W9, W10, W18, W23, N25, W25); }
  lemma Word26(o: Ops) requires IsOps(o) ensures Extends(o, W10, W11, W19, W24, N26, W26) { ExtendZero(o, W10, W11, W19, W24, N26, W26); }
  lemma Word27(o: Ops) requires IsOps(o) ensures Extends(o, W11, W12, W20, W25, N27, W27) { ExtendZero(o, W11, W12, W20, W25, N27, W27); }
  lemma Word28(o: Ops) requires IsOps(o) ensures Extends(o, W12, W13, W21, W26, N28, W28) { ExtendZero(o, W12, W13, W21, W26, N28, W28); }
  lemma Word29(o: Ops) requires IsOps(o) ensures Extends(o, W13, W14, W22, W27, N29, W29) { ExtendZero(o, W13, W14, W22, W27, N29, W29); }
  lemma Word30(o: Ops) requires IsOps(o) ensures Extends(o, W14, W15, W23, W28, N30, W30) { Extend(o, W14, W15, W23, W28, N30, W30); }
  lemma Word31(o: Ops) requires IsOps(o) ensures Extends(o, W15, W16, W24, W29, N31, W31) { Extend(o, W15, W16, W24, W29, N31, W31); }
  lemma Word32(o: Ops) requires IsOps(o) ensures Extends(o, W16, W17, W25, W30, N32, W32) { Extend(o, W16, W17, W25, W30, N32, W32); }
  lemma Word33(o: Ops) requires IsOps(o) ensures Extends(o, W17, W18, W26, W31, N33, W33) { Extend(o, W17, W18, W26, W31, N33, W33); }
  lemma Word34(o: Ops) requires IsOps(o) ensures Extends(o, W18, W19, W27, W32, N34, W34) { Extend(o, W18, W19, W27, W32, N34, W34); }
  lemma Word35(o: Ops) requires IsOps(o) ensures Extends(o, W19, W20, W28, W33, N35, W35) { Extend(o, W19, W20, W28, W33, N35, W35); }
  lemma Word36(o: Ops) requires IsOps(o) ensures Extends(o, W20, W21, W29, W34, N36, W36) { Extend(o, W20, W21, W29, W34, N36, W36); }
  lemma Word37(o: Ops) requires IsOps(o) ensures Extends(o, W21, W22, W30, W35, N37, W37) { Extend(o, W21, W22, W30, W35, N37, W37); }
  lemma Word38(o: Ops) requires IsOps(o) ensures Extends(o, W22, W23, W31, W36, N38, W38) { Extend(o, W22, W23, W31, W36, N38, W38); }
  lemma Word39(o: Ops) requires IsOps(o) ensures Extends(o, W23, W24, W32, W37, N39, W39) { Extend(o, W23, W24, W32, W37, N39, W39); }
  lemma Word40(o: Ops) requires IsOps(o) ensures Extends(o, W24, W25, W33, W38, N40, W40) { Extend(o, W24, W25, W33, W38, N40, W40); }
  lemma Word41(o: Ops) requires IsOps(o) ensures Extends(o, W25, W26, W34, W39, N41, W41) { Extend(o, W25, W26, W34, W39, N41, W41); }
  lemma Word42(o: Ops) requires IsOps(o) ensures Extends(o, W26, W27, W35, W40, N42, W42) { Extend(o, W26, W27, W35, W40, N42, W42); }
  lemma Word43(o: Ops) requires IsOps(o) ensures Extends(o, W27, W28, W36, W41, N43, W43) { Extend(o, W27, W28, W36, W41, N43, W43); }
  lemma Word44(o: Ops) requires IsOps(o) ensures Extends(o, W28, W29, W37, W42, N44, W44) { Extend(o, W28, W29, W37, W42, N44, W44); }
  lemma Word45(o: Ops) requires IsOps(o) ensures Extends(o, W29, W30, W38, W43, N45, W45) { Extend(o, W29, W30, W38, W43, N45, W45); }
  lemma Word46(o: Ops) requires IsOps(o) ensures Extends(o, W30, W31, W39, W44, N46, W46) { Extend(o, W30, W31, W39, W44, N46, W46); }
  lemma Word47(o: Ops) requires IsOps(o) ensures Extends(o, W31, W32, W40, W45, N47, W47) { Extend(o, W31, W32, W40, W45, N47, W47); }
  lemma Word48(o: Ops) requires IsOps(o) ensures Extends(o, W32, W33, W41, W46, N48, W48) { Extend(o, W32, W33, W41, W46, N48, W48); }
  lemma Word49(o: Ops) requires IsOps(o) ensures Extends(o, W33, W34, W42, W47, N49, W49) { Extend(o, W33, W34, W42, W47, N49, W49); }
  lemma Word50(o: Ops) requires IsOps(o) ensures Extends(o, W34, W35, W43, W48, N50, W50) { Extend(o, W34, W35, W43, W48, N50, W50); }
  lemma Word51(o: Ops) requires IsOps(o) ensures Extends(o, W35, W36, W44, W49, N51, W51) { Extend(o, W35, W36, W44, W49, N51, W51); }
  lemma Word52(o: Ops) requires IsOps(o) ensures Extends(o, W36, W37, W45, W50, N52, W52) { Extend(o, W36, W37, W45, W50, N52, W52); }
  lemma Word53(o: Ops) requires IsOps(o) ensures Extends(o, W37, W38, W46, W51, N53, W53) { Extend(o, W37, W38, W46, W51, N53, W53); }
  lemma Word54(o: Ops) requires IsOps(o) ensures Extends(o, W38, W39, W47, W52, N54, W54) { Extend(o, W38, W39, W47, W52, N54, W54); }
  lemma Word55(o: Ops) requires IsOps(o) ensures Extends(o, W39, W40, W48, W53, N55, W55) { Extend(o, W39, W40, W48, W53, N55, W55); }
  lemma Word56(o: Ops) requires IsOps(o) ensures Extends(o, W40, W41, W49, W54, N56, W56) { Extend(o, W40, W41, W49, W54, N56, W56); }
  lemma Word57(o: Ops) requires IsOps(o) ensures Extends(o, W41, W42, W50, W55, N57, W57) { Extend(o, W41, W42, W50, W55, N57, W57); }
  lemma Word58(o: Ops) requires IsOps(o) ensures Extends(o, W42, W43, W51, W56, N58, W58) { Extend(o, W42, W43, W51, W56, N58, W58); }
  lemma Word59(o: Ops) requires IsOps(o) ensures Extends(o, W43, W44, W52, W57, N59, W59) { Extend(o, W43, W44, W52, W57, N59, W59); }
  lemma Word60(o: Ops) requires IsOps(o) ensures Extends(o, W44, W45, W53, W58, N60, W60) { Extend(o, W44, W45, W53, W58, N60, W60); }
  lemma Word61(o: Ops) requires IsOps(o) ensures Extends(o, W45, W46, W54, W59, N61, W61) { Extend(o, W45, W46, W54, W59, N61, W61); }
  lemma Word62(o: Ops) requires IsOps(o) ensures Extends(o, W46, W47, W55, W60, N62, W62) { Extend(o, W46, W47, W55, W60, N62, W62); }
  lemma Word63(o: Ops) requires IsOps(o) ensures Extends(o, W47, W48, W56, W61, N63, W63) { Extend(o, W47, W48, W56, W61, N63, W63); }

  lemma First0(o: Ops) requires IsOps(o) ensures TurnsFirst(o, V0, K0, W0, M0) { First(o, V0, K0, W0, M0); }
  lemma Second0(o: Ops) requires IsOps(o) ensures TurnsSecond(o, V0, M0, V1) { Second(o, V0, M0, V1); }
  lemma First1(o: Ops) requires IsOps(o) ensures TurnsFirst(o, V1, K1, W1, M1) { First(o, V1, K1, W1, M1); }
  lemma Second1(o: Ops) requires IsOps(o) ensures TurnsSecond(o, V1, M1, V2) { Second(o, V1, M1, V2); }
  lemma First2(o: Ops) requires IsOps(o) ensures TurnsFirst(o, V2, K2, W2, M2) { First(o, V2, K2, W2, M2); }
  lemma Second2(o: Ops) requires IsOps(o) ensures TurnsSecond(o, V2, M2, V3) { Second(o, V2, M2, V3); }
  lemma First3(o: Ops) requires IsOps(o) ensures TurnsFirst(o, V3, K3, W3, M3) { First(o, V3, K3, W3, M3); }
  lemma Second3(o: Ops) requires IsOps(o) ensures TurnsSecond(o, V3, M3, V4) { Second(o, V3, M3, V4); }
  lemma First4(o: Ops) requires IsOps(o) ensures TurnsFirst(o, V4, K4, W4, M4) { First(o, V4, K4, W4, M4); }
  lemma Second4(o: Ops) requires IsOps(o) ensures TurnsSecond(o, V4, M4, V5) { Second(o, V4, M4, V5); }
  lemma First5(o: Ops) requires IsOps(o) ensures TurnsFirst(o, V5, K5, W5, M5) { First(o, V5, K5, W5, M5); }
  lemma Second5(o: Ops) requires IsOps(o) ensures TurnsSecond(o, V5, M5, V6) { Second(o, V5, M5, V6); }
  lemma First6(o: Ops) requires IsOps(o) ensures TurnsFirst(o, V6, K6, W6, M6) { First(o, V6, K6, W6, M6); }
  lemma Second6(o: Ops) requires IsOps(o) ensures TurnsSecond(o, V6, M6, V7) { Second(o, V6, M6, V7); }
  lemma First7(o: Ops) requires IsOps(o) ensures TurnsFirst(o, V7, K7, W7, M7) { First(o, V7, K7, W7, M7); }
  lemma Second7(o: Ops) requires IsOps(o) ensures TurnsSecond(o, V7, M7, V8) { Second(o, V7, M7, V8); }
  lemma First8(o: Ops) requires IsOps(o) ensures TurnsFirst(o, V8, K8, W8, M8) { First(o, V8, K8, W8, M8); }
  lemma Second8(o: Ops) requires IsOps(o) ensures TurnsSecond(o, V8, M8, V9) { Second(o, V8, M8, V9); }
  lemma First9(o: Ops) requires IsOps(o) ensures TurnsFirst(o, V9, K9, W9, M9) { First(o, V9, K9, W9, M9); }
  lemma Second9(o: Ops) requires IsOps(o) ensures TurnsSecond(o, V9, M9, V10) { Second(o, V9, M9, V10); }
  lemma First10(o: Ops) requires IsOps(o) ensures TurnsFirst(o, V10, K10, W10, M10) { First(o, V10, K10, W10, M10); }
  lemma Second10(o: Ops) requires IsOps(o) ensures TurnsSecond(o, V10, M10, V11) { Second(o, V10, M10, V11); }
  lemma First11(o: Ops) requires IsOps(o) ensures TurnsFirst(o, V11, K11, W11, M11) { First(o, V11, K11, W11, M11); }
  lemma Second11(o: Ops) requires IsOps(o) ensures TurnsSecond(o, V11, M11, V12) { Second(o, V11, M11, V12); }
  lemma First12(o: Ops) requires IsOps(o) ensures TurnsFirst(o, V12, K12, W12, M12) { First(o, V12, K12, W12, M12); }
  lemma Second12(o: Ops) requires IsOps(o) ensures TurnsSecond(o, V12, M12, V13) { Second(o, V12, M12, V13); }
  lemma First13(o: Ops) requires IsOps(o) ensures TurnsFirst(o, V13, K13, W13, M13) { First(o, V13, K13, W13, M13); }
  lemma Second13(o: Ops) requires IsOps(o) ensures TurnsSecond(o, V13, M13, V14) { Second(o, V13, M13, V14); }
  lemma First14(o: Ops) requires IsOps(o) ensures TurnsFirst(o, V14, K14, W14, M14) { First(o, V14, K14, W14, M14); }
  lemma Second14(o: Ops) requires IsOps(o) ensures TurnsSecond(o, V14, M14, V15) { Second(o, V14, M14, V15); }
  lemma First15(o: Ops) requires IsOps(o) ensures TurnsFirst(o, V15, K15, W15, M15) { First(o, V15, K15, W15, M15); }
  lemma Second15(o: Ops) requires IsOps(o) ensures TurnsSecond(o, V15, M15, V16) { Second(o, V15, M15, V16); }
  lemma First16(o: Ops) requires IsOps(o) ensures TurnsFirst(o, V16, K16, W16, M16) { First(o, V16, K16, W16, M16); }
  lemma Second16(o: Ops) requires IsOps(o) ensures TurnsSecond(o, V16, M16, V17) { Second(o, V16, M16, V17); }
  lemma First17(o: Ops) requires IsOps(o) ensures TurnsFirst(o, V17, K17, W17, M17) { First(o, V17, K17, W17, M17); }
  lemma Second17(o: Ops) requires IsOps(o) ensures TurnsSecond(o, V17, M17, V18) { Second(o, V17, M17, V18); }
  lemma First18(o: Ops) requires IsOps(o) ensures TurnsFirst(o, V18, K18, W18, M18) { First(o, V18, K18, W18, M18); }
  lemma Second18(o: Ops) requires IsOps(o) ensures TurnsSecond(o, V18, M18, V19) { Second(o, V18, M18, V19); }
  lemma First19(o: Ops) requires IsOps(o) ensures TurnsFirst(o, V19, K19, W19, M19) { First(o, V19, K19, W19, M19); }
  lemma Second19(o: Ops) requires IsOps(o) ensures TurnsSecond(o, V19, M19, V20) { Second(o, V19, M19, V20); }
  lemma First20(o: Ops) requires IsOps(o) ensures TurnsFirst(o, V20, K20, W20, M20) { First(o, V20, K20, W20, M20); }
  lemma Second20(o: Ops) requires IsOps(o) ensures TurnsSecond(o, V20, M20, V21) { Second(o, V20, M20, V21); }
  lemma First21(o: Ops) requires IsOps(o) ensures TurnsFirst(o, V21, K21, W21, M21) { First(o, V21, K21, W21, M21); }
  lemma Second21(o: Ops) requires IsOps(o) ensures TurnsSecond(o, V21, M21, V22) { Second(o, V21, M21, V22); }
  lemma First22(o: Ops) requires IsOps(o) ensures TurnsFirst(o, V22, K22, W22, M22) { First(o, V22, K22, W22, M22); }
  lemma Second22(o: Ops) requires IsOps(o) ensures TurnsSecond(o, V22, M22, V23) { Second(o, V22, M22, V23); }
  lemma First23(o: Ops) requires IsOps(o) ensures TurnsFirst(o, V23, K23, W23, M23) { First(o, V23, K23, W23, M23); }
  lemma Second23(o: Ops) requires IsOps(o) ensures TurnsSecond(o, V23, M23, V24) { Second(o, V23, M23, V24); }
  lemma First24(o: Ops) requires IsOps(o) ensures TurnsFirst(o, V24, K24, W24, M24) { First(o, V24, K24, W24, M24); }
  lemma Second24(o: Ops) requires IsOps(o) ensures TurnsSecond(o, V24, M24, V25) { Second(o, V24, M24, V25); }
  lemma First25(o: Ops) requires IsOps(o) ensures TurnsFirst(o, V25, K25, W25, M25) { First(o, V25, K25, W25, M25); }
  lemma Second25(o: Ops) requires IsOps(o) ensures TurnsSecond(o, V25, M25, V26) { Second(o, V25, M25, V26); }
  lemma First26(o: Ops) requires IsOps(o) ensures TurnsFirst(o, V26, K26, W26, M26) { First(o, V26, K26, W26, M26); }
  lemma Second26(o: Ops) requires IsOps(o) ensures TurnsSecond(o, V26, M26, V27) { Second(o, V26, M26, V27); }
  lemma First27(o: Ops) requires IsOps(o) ensures TurnsFirst(o, V27, K27, W27, M27) { First(o, V27, K27, W27, M27); }
  lemma Second27(o: Ops) requires IsOps(o) ensures TurnsSecond(o, V27, M27, V28) { Second(o, V27, M27, V28); }
  lemma First28(o: Ops) requires IsOps(o) ensures TurnsFirst(o, V28, K28, W28, M28) { First(o, V28, K28, W28, M28); }
  lemma Second28(o: Ops) requires IsOps(o) ensures TurnsSecond(o, V28, M28, V29) { Second(o, V28, M28, V29); }
  lemma First29(o: Ops) requires IsOps(o) ensures TurnsFirst(o, V29, K29, W29, M29) { First(o, V29, K29, W29, M29); }
  lemma Second29(o: Ops) requires IsOps(o) ensures TurnsSecond(o, V29, M29, V30) { Second(o, V29, M29, V30); }
  lemma First30(o: Ops) requires IsOps(o) ensures TurnsFirst(o, V30, K30, W30, M30) { First(o, V30, K30, W30, M30); }
  lemma Second30(o: Ops) requires IsOps(o) ensures TurnsSecond(o, V30, M30, V31) { Second(o, V30, M30, V31); }
  lemma First31(o: Ops) requires IsOps(o) ensures TurnsFirst(o, V31, K31, W31, M31) { First(o, V31, K31, W31, M31); }
  lemma Second31(o: Ops) requires IsOps(o) ensures TurnsSecond(o, V31, M31, V32) { Second(o, V31, M31, V32); }
  lemma First32(o: Ops) requires IsOps(o) ensures TurnsFirst(o, V32, K32, W32, M32) { First(o, V32, K32, W32, M32); }
  lemma Second32(o: Ops) requires IsOps(o) ensures TurnsSecond(o, V32, M32, V33) { Second(o, V32, M32, V33); }
  lemma First33(o: Ops) requires IsOps(o) ensures TurnsFirst(o, V33, K33, W33, M33) { First(o, V33, K33, W33, M33); }
  lemma Second33(o: Ops) requires IsOps(o) ensures TurnsSecond(o, V33, M33, V34) { Second(o, V33, M33, V34); }
  lemma First34(o: Ops) requires IsOps(o) ensures TurnsFirst(o, V34, K34, W34, M34) { First(o, V34, K34, W34, M34); }
  lemma Second34(o: Ops) requires IsOps(o) ensures TurnsSecond(o, V34, M34, V35) { Second(o, V34, M34, V35); }
  lemma First35(o: Ops) requires IsOps(o) ensures TurnsFirst(o, V35, K35, W35, M35) { First(o, V35, K35, W35, M35); }
  lemma Second35(o: Ops) requires IsOps(o) ensures TurnsSecond(o, V35, M35, V36) { Second(o, V35, M35, V36); }
  lemma First36(o: Ops) requires IsOps(o) ensures TurnsFirst(o, V36, K36, W36, M36) { First(o, V36, K36, W36, M36); }
  lemma Second36(o: Ops) requires IsOps(o) ensures TurnsSecond(o, V36, M36, V37) { Second(o, V36, M36, V37); }
  lemma First37(o: Ops) requires IsOps(o) ensures TurnsFirst(o, V37, K37, W37, M37) { First(o, V37, K37, W37, M37); }
  lemma Second37(o: Ops) requires IsOps(o) ensures TurnsSecond(o, V37, M37, V38) { Second(o, V37, M37, V38); }
  lemma First38(o: Ops) requires IsOps(o) ensures TurnsFirst(o, V38, K38, W38, M38) { First(o, V38, K38, W38, M38); }
  lemma Second38(o: Ops) requires IsOps(o) ensures TurnsSecond(o, V38, M38, V39) { Second(o, V38, M38, V39); }
  lemma First39(o: Ops) requires IsOps(o) ensures TurnsFirst(o, V39, K39, W39, M39) { First(o, V39, K39, W39, M39); }
  lemma Second39(o: Ops) requires IsOps(o) ensures TurnsSecond(o, V39, M39, V40) { Second(o, V39, M39, V40); }
  lemma First40(o: Ops) requires IsOps(o) ensures TurnsFirst(o, V40, K40, W40, M40) { First(o, V40, K40, W40, M40); }
  lemma Second40(o: Ops) requires IsOps(o) ensures TurnsSecond(o, V40, M40, V41) { Second(o, V40, M40, V41); }
  lemma First41(o: Ops) requires IsOps(o) ensures TurnsFirst(o, V41, K41, W41, M41) { First(o, V41, K41, W41, M41); }
  lemma Second41(o: Ops) requires IsOps(o) ensures TurnsSecond(o, V41, M41, V42) { Second(o, V41, M41, V42); }
  lemma First42(o: Ops) requires IsOps(o) ensures TurnsFirst(o, V42, K42, W42, M42) { First(o, V42, K42, W42, M42); }
  lemma Second42(o: Ops) requires IsOps(o) ensures TurnsSecond(o, V42, M42, V43) { Second(o, V42, M42, V43); }
  lemma First43(o: Ops) requires IsOps(o) ensures TurnsFirst(o, V43, K43, W43, M43) { First(o, V43, K43, W43, M43); }
  lemma Second43(o: Ops) requires IsOps(o) ensures TurnsSecond(o, V43, M43, V44) { Second(o, V43, M43, V44); }
  lemma First44(o: Ops) requires IsOps(o) ensures TurnsFirst(o, V44, K44, W44, M44) { First(o, V44, K44, W44, M44); }
  lemma Second44(o: Ops) requires IsOps(o) ensures TurnsSecond(o, V44, M44, V45) { Second(o, V44, M44, V45); }
  lemma First45(o: Ops) requires IsOps(o) ensures TurnsFirst(o, V45, K45, W45, M45) { First(o, V45, K45, W45, M45); }
  lemma Second45(o: Ops) requires IsOps(o) ensures TurnsSecond(o, V45, M45, V46) { Second(o, V45, M45, V46); }
  lemma First46(o: Ops) requires IsOps(o) ensures TurnsFirst(o, V46, K46, W46, M46) { First(o, V46, K46, W46, M46); }
  lemma Second46(o: Ops) requires IsOps(o) ensures TurnsSecond(o, V46, M46, V47) { Second(o, V46, M46, V47); }
  lemma First47(o: Ops) requires IsOps(o) ensures TurnsFirst(o, V47, K47, W47, M47) { First(o, V47, K47, W47, M47); }
  lemma Second47(o: Ops) requires IsOps(o) ensures TurnsSecond(o, V47, M47, V48) { Second(o, V47, M47, V48); }
  lemma First48(o: Ops) requires IsOps(o) ensures TurnsFirst(o, V48, K48, W48, M48) { First(o, V48, K48, W48, M48); }
  lemma Second48(o: Ops) requires IsOps(o) ensures TurnsSecond(o, V48, M48, V49) { Second(o, V48, M48, V49); }
  lemma First49(o: Ops) requires IsOps(o) ensures TurnsFirst(o, V49, K49, W49, M49) { First(o, V49, K49, W49, M49); }
  lemma Second49(o: Ops) requires IsOps(o) ensures TurnsSecond(o, V49, M49, V50) { Second(o, V49, M49, V50); }
  lemma First50(o: Ops) requires IsOps(o) ensures TurnsFirst(o, V50, K50, W50, M50) { First(o, V50, K50, W50, M50); }
  lemma Second50(o: Ops) requires IsOps(o) ensures TurnsSecond(o, V50, M50, V51) { Second(o, V50, M50, V51); }
  lemma First51(o: Ops) requires IsOps(o) ensures TurnsFirst(o, V51, K51, W51, M51) { First(o, V51, K51, W51, M51); }
  lemma Second51(o: Ops) requires IsOps(o) ensures TurnsSecond(o, V51, M51, V52) { Second(o, V51, M51, V52); }
  lemma First52(o: Ops) requires IsOps(o) ensures TurnsFirst(o, V52, K52, W52, M52) { First(o, V52, K52, W52, M52); }
  lemma Second52(o: Ops) requires IsOps(o) ensures TurnsSecond(o, V52, M52, V53) { Second(o, V52, M52, V53); }
  lemma First53(o: Ops) requires IsOps(o) ensures TurnsFirst(o, V53, K53, W53, M53) { First(o, V53, K53, W53, M53); }
  lemma Second53(o: Ops) requires IsOps(o) ensures TurnsSecond(o, V53, M53, V54) { Second(o, V53, M53, V54); }
  lemma First54(o: Ops) requires IsOps(o) ensures TurnsFirst(o, V54, K54, W54, M54) { First(o, V54, K54, W54, M54); }
  lemma Second54(o: Ops) requires IsOps(o) ensures TurnsSecond(o, V54, M54, V55) { Second(o, V54, M54, V55); }
  lemma First55(o: Ops) requires IsOps(o) ensures TurnsFirst(o, V55, K55, W55, M55) { First(o, V55, K55, W55, M55); }
  lemma Second55(o: Ops) requires IsOps(o) ensures TurnsSecond(o, V55, M55, V56) { Second(o, V55, M55, V56); }
  lemma First56(o: Ops) requires IsOps(o) ensures TurnsFirst(o, V56, K56, W56, M56) { First(o, V56, K56, W56, M56); }
  lemma Second56(o: Ops) requires IsOps(o) ensures TurnsSecond(o, V56, M56, V57) { Second(o, V56, M56, V57); }
  lemma First57(o: Ops) requires IsOps(o) ensures TurnsFirst(o, V57, K57, W57, M57) { First(o, V57, K57, W57, M57); }
  lemma Second57(o: Ops) requires IsOps(o) ensures TurnsSecond(o, V57, M57, V58) { Second(o, V57, M57, V58); }
  lemma First58(o: Ops) requires IsOps(o) ensures TurnsFirst(o, V58, K58, W58, M58) { First(o, V58, K58, W58, M58); }
  lemma Second58(o: Ops) requires IsOps(o) ensures TurnsSecond(o, V58, M58, V59) { Second(o, V58, M58, V59); }
  lemma First59(o: Ops) requires IsOps(o) ensures TurnsFirst(o, V59, K59, W59, M59) { First(o, V59, K59, W59, M59); }
  lemma Second59(o: Ops) requires IsOps(o) ensures TurnsSecond(o, V59, M59, V60) { Second(o, V59, M59, V60); }
  lemma First60(o: Ops) requires IsOps(o) ensures TurnsFirst(o, V60, K60, W60, M60) { First(o, V60, K60, W60, M60); }
  lemma Second60(o: Ops) requires IsOps(o) ensures TurnsSecond(o, V60, M60, V61) { Second(o, V60, M60, V61); }
  lemma First61(o: Ops) requires IsOps(o) ensures TurnsFirst(o, V61, K61, W61, M61) { First(o, V61, K61, W61, M61); }
  lemma Second61(o: Ops) requires IsOps(o) ensures TurnsSecond(o, V61, M61, V62) { Second(o, V61, M61, V62); }
  lemma First62(o: Ops) requires IsOps(o) ensures TurnsFirst(o, V62, K62, W62, M62) { First(o, V62, K62, W62, M62); }
  lemma Second62(o: Ops) requires IsOps(o) ensures TurnsSecond(o, V62, M62, V63) { Second(o, V62, M62, V63); }
  lemma First63(o: Ops) requires IsOps(o) ensures TurnsFirst(o, V63, K63, W63, M63) { First(o, V63, K63, W63, M63); }
  lemma Second63(o: Ops) requires IsOps(o) ensures TurnsSecond(o, V63, M63, V64) { Second(o, V63, M63, V64); }

  // ----- By their numbers -----

  function KeyOf0(t: nat): Hex
    requires 0 <= t < 16
  {
    match t
    case 0 => K0 case 1 => K1 case 2 => K2 case 3 => K3 case 4 => K4 case 5 => K5 case 6 => K6 case 7 => K7
    case 8 => K8 case 9 => K9 case 10 => K10 case 11 => K11 case 12 => K12 case 13 => K13 case 14 => K14 case _ => K15
  }

  function KeyOf16(t: nat): Hex
    requires 16 <= t < 32
  {
    match t
    case 16 => K16 case 17 => K17 case 18 => K18 case 19 => K19 case 20 => K20 case 21 => K21 case 22 => K22 case 23 => K23
    case 24 => K24 case 25 => K25 case 26 => K26 case 27 => K27 case 28 => K28 case 29 => K29 case 30 => K30 case _ => K31
  }

  function KeyOf32(t: nat): Hex
    requires 32 <= t < 48
  {
    match t
    case 32 => K32 case 33 => K33 case 34 => K34 case 35 => K35 case 36 => K36 case 37 => K37 case 38 => K38 case 39 => K39
    case 40 => K40 case 41 => K41 case 42 => K42 case 43 => K43 case 44 => K44 case 45 => K45 case 46 => K46 case _ => K47
  }

  function KeyOf48(t: nat): Hex
    requires 48 <= t < 64
  {
    match t
    case 48 => K48 case 49 => K49 case 50 => K50 case 51 => K51 case 52 => K52 case 53 => K53 case 54 => K54 case 55 => K55
    case 56 => K56 case 57 => K57 case 58 => K58 case 59 => K59 case 60 => K60 case 61 => K61 case 62 => K62 case _ => K63
  }

  /** The constant of round t. */
  function KeyOf(t: nat): Hex
    requires 0 <= t < 64
  {
    if t < 16 then KeyOf0(t) else if t < 32 then KeyOf16(t) else if t < 48 then KeyOf32(t) else KeyOf48(t)
  }

  function WordOf0(t: nat): Hex
    requires 0 <= t < 16
  {
    match t
    case 0 => W0 case 1 => W1 case 2 => W2 case 3 => W3 case 4 => W4 case 5 => W5 case 6 => W6 case 7 => W7
    case 8 => W8 case 9 => W9 case 10 => W10 case 11 => W11 case 12 => W12 case 13 => W13 case 14 => W14 case _ => W15
  }

  function WordOf16(t: nat): Hex
    requires 16 <= t < 32
  {
    match t
    case 16 => W16 case 17 => W17 case 18 => W18 case 19 => W19 case 20 => W20 case 21 => W21 case 22 => W22 case 23 => W23
    case 24 => W24 case 25 => W25 case 26 => W26 case 27 => W27 case 28 => W28 case 29 => W29 case 30 => W30 case _ => W31
  }

  function WordOf32(t: nat): Hex
    requires 32 <= t < 48
  {
    match t
    case 32 => W32 case 33 => W33 case 34 => W34 case 35 => W35 case 36 => W36 case 37 => W37 case 38 => W38 case 39 => W39
    case 40 => W40 case 41 => W41 case 42 => W42 case 43 => W43 case 44 => W44 case 45 => W45 case 46 => W46 case _ => W47
  }

  function WordOf48(t: nat): Hex
    requires 48 <= t < 64
  {
    match t
    case 48 => W48 case 49 => W49 case 50 => W50 case 51 => W51 case 52 => W52 case 53 => W53 case 54 => W54 case 55 => W55
    case 56 => W56 case 57 => W57 case 58 => W58 case 59 => W59 case 60 => W60 case 61 => W61 case 62 => W62 case _ => W63
  }

  /** Word t of the schedule. */
  function WordOf(t: nat): Hex
    requires 0 <= t < 64
  {
    if t < 16 then WordOf0(t) else if t < 32 then WordOf16(t) else if t < 48 then WordOf32(t) else WordOf48(t)
  }

  function NextOf16(t: nat): Next
    requires 16 <= t < 32
  {
    match t
    case 16 => N16 case 17 => N17 case 18 => N18 case 19 => N19 case 20 => N20 case 21 => N21 case 22 => N22 case 23 => N23
    case 24 => N24 case 25 => N25 case 26 => N26 case 27 => N27 case 28 => N28 case 29 => N29 case 30 => N30 case _ => N31
  }

  function NextOf32(t: nat): Next
    requires 32 <= t < 48
  {
    match t
    case 32 => N32 case 33 => N33 case 34 => N34 case 35 => N35 case 36 => N36 case 37 => N37 case 38 => N38 case 39 => N39
    case 40 => N40 case 41 => N41 case 42 => N42 case 43 => N43 case 44 => N44 case 45 => N45 case 46 => N46 case _ => N47
  }

  function NextOf48(t: nat): Next
    requires 48 <= t < 64
  {
    match t
    case 48 => N48 case 49 => N49 case 50 => N50 case 51 => N51 case 52 => N52 case 53 => N53 case 54 => N54 case 55 => N55
    case 56 => N56 case 57 => N57 case 58 => N58 case 59 => N59 case 60 => N60 case 61 => N61 case 62 => N62 case _ => N63
  }

  /** What is added up for it. */
  function NextOf(t: nat): Next
    requires 16 <= t < 64
  {
    if t < 32 then NextOf16(t) else if t < 48 then NextOf32(t) else NextOf48(t)
  }

  function WorkOf0(t: nat): Work
    requires 0 <= t < 16
  {
    match t
    case 0 => V0 case 1 => V1 case 2 => V2 case 3 => V3 case 4 => V4 case 5 => V5 case 6 => V6 case 7 => V7
    case 8 => V8 case 9 => V9 case 10 => V10 case 11 => V11 case 12 => V12 case 13 => V13 case 14 => V14 case _ => V15
  }

  function WorkOf16(t: nat): Work
    requires 16 <= t < 32
  {
    match t
    case 16 => V16 case 17 => V17 case 18 => V18 case 19 => V19 case 20 => V20 case 21 => V21 case 22 => V22 case 23 => V23
    case 24 => V24 case 25 => V25 case 26 => V26 case 27 => V27 case 28 => V28 case 29 => V29 case 30 => V30 case _ => V31
  }

  function WorkOf32(t: nat): Work
    requires 32 <= t < 48
  {
    match t
    case 32 => V32 case 33 => V33 case 34 => V34 case 35 => V35 case 36 => V36 case 37 => V37 case 38 => V38 case 39 => V39
    case 40 => V40 case 41 => V41 case 42 => V42 case 43 => V43 case 44 => V44 case 45 => V45 case 46 => V46 case _ => V47
  }

  function WorkOf48(t: nat): Work
    requires 48 <= t < 64
  {
    match t
    case 48 => V48 case 49 => V49 case 50 => V50 case 51 => V51 case 52 => V52 case 53 => V53 case 54 => V54 case 55 => V55
    case 56 => V56 case 57 => V57 case 58 => V58 case 59 => V59 case 60 => V60 case 61 => V61 case 62 => V62 case _ => V63
  }

  function WorkOf64(t: nat): Work
    requires 64 <= t < 65
  {
    match t
    case _ => V64
  }

  /** The working variables before round t. */
  function WorkOf(t: nat): Work
    requires 0 <= t < 65
  {
    if t < 16 then WorkOf0(t) else if t < 32 then WorkOf16(t) else if t < 48 then WorkOf32(t) else if t < 64 then WorkOf48(t) else WorkOf64(t)
  }

  function MidOf0(t: nat): Mid
    requires 0 <= t < 16
  {
    match t
    case 0 => M0 case 1 => M1 case 2 => M2 case 3 => M3 case 4 => M4 case 5 => M5 case 6 => M6 case 7 => M7
    case 8 => M8 case 9 => M9 case 10 => M10 case 11 => M11 case 12 => M12 case 13 => M13 case 14 => M14 case _ => M15
  }

  function MidOf16(t: nat): Mid
    requires 16 <= t < 32
  {
    match t
    case 16 => M16 case 17 => M17 case 18 => M18 case 19 => M19 case 20 => M20 case 21 => M21 case 22 => M22 case 23 => M23
    case 24 => M24 case 25 => M25 case 26 => M26 case 27 => M27 case 28 => M28 case 29 => M29 case 30 => M30 case _ => M31
  }

  function MidOf32(t: nat): Mid
    requires 32 <= t < 48
  {
    match t
    case 32 => M32 case 33 => M33 case 34 => M34 case 35 => M35 case 36 => M36 case 37 => M37 case 38 => M38 case 39 => M39
    case 40 => M40 case 41 => M41 case 42 => M42 case 43 => M43 case 44 => M44 case 45 => M45 case 46 => M46 case _ => M47
  }

  function MidOf48(t: nat): Mid
    requires 48 <= t < 64
  {
    match t
    case 48 => M48 case 49 => M49 case 50 => M50 case 51 => M51 case 52 => M52 case 53 => M53 case 54 => M54 case 55 => M55
    case 56 => M56 case 57 => M57 case 58 => M58 case 59 => M59 case 60 => M60 case 61 => M61 case 62 => M62 case _ => M63
  }

  /** What is added up in round t. */
  function MidOf(t: nat): Mid
    requires 0 <= t < 64
  {
    if t < 16 then MidOf0(t) else if t < 32 then MidOf16(t) else if t < 48 then MidOf32(t) else MidOf48(t)
  }

  lemma {:induction false} ExtendsAt16(o: Ops, t: nat)
    requires IsOps(o) && 16 <= t < 32
    ensures Extends(o, WordOf(t - 16), WordOf(t - 15), WordOf(t - 7), WordOf(t - 2), NextOf(t), WordOf(t))
  {
    match t
    case 16 => Word16(o);
    case 17 => Word17(o);
    case 18 => Word18(o);
    case 19 => Word19(o);
    case 20 => Word20(o);
    case 21 => Word21(o);
    case 22 => Word22(o);
    case 23 => Word23(o);
    case 24 => Word24(o);
    case 25 => Word25(o);
    case 26 => Word26(o);
    case 27 => Word27(o);
    case 28 => Word28(o);
    case 29 => Word29(o);
    case 30 => Word30(o);
    case _ => Word31(o);
  }

  lemma {:induction false} ExtendsAt32(o: Ops, t: nat)
    requires IsOps(o) && 32 <= t < 48
    ensures Extends(o, WordOf(t - 16), WordOf(t - 15), WordOf(t - 7), WordOf(t - 2), NextOf(t), WordOf(t))
  {
    match t
    case 32 => Word32(o);
    case 33 => Word33(o);
    case 34 => Word34(o);
    case 35 => Word35(o);
    case 36 => Word36(o);
    case 37 => Word37(o);
    case 38 => Word38(o);
    case 39 => Word39(o);
    case 40 => Word40(o);
    case 41 => Word41(o);
    case 42 => Word42(o);
    case 43 => Word43(o);
    case 44 => Word44(o);
    case 45 => Word45(o);
    case 46 => Word46(o);
    case _ => Word47(o);
  }

  lemma {:induction false} ExtendsAt48(o: Ops, t: nat)
    requires IsOps(o) && 48 <= t < 64
    ensures Extends(o, WordOf(t - 16), WordOf(t - 15), WordOf(t - 7), WordOf(t - 2), NextOf(t), WordOf(t))
  {
    match t
    case 48 => Word48(o);
    case 49 => Word49(o);
    case 50 => Word50(o);
    case 51 => Word51(o);
    case 52 => Word52(o);
    case 53 => Word53(o);
    case 54 => Word54(o);
    case 55 => Word55(o);
    case 56 => Word56(o);
    case 57 => Word57(o);
    case 58 => Word58(o);
    case 59 => Word59(o);
    case 60 => Word60(o);
    case 61 => Word61(o);
    case 62 => Word62(o);
    case _ => Word63(o);
  }

  lemma {:induction false} ExtendsAt(o: Ops, t: nat)
    requires IsOps(o) && 16 <= t < 64
    ensures Extends(o, WordOf(t - 16), WordOf(t - 15), WordOf(t - 7), WordOf(t - 2), NextOf(t), WordOf(t))
  {
    if t < 32 {
      ExtendsAt16(o, t);
    } else if t < 48 {
      ExtendsAt32(o, t);
    } else {
      ExtendsAt48(o, t);
    }
  }

  lemma {:induction false} TurnsAt0(o: Ops, t: nat)
    requires IsOps(o) && 0 <= t < 8
    ensures Turns(o, WorkOf(t), KeyOf(t), WordOf(t), MidOf(t), WorkOf(t + 1))
  {
    match t
    case 0 => First0(o); Second0(o);
    case 1 => First1(o); Second1(o);
    case 2 => First2(o); Second2(o);
    case 3 => First3(o); Second3(o);
    case 4 => First4(o); Second4(o);
    case 5 => First5(o); Second5(o);
    case 6 => First6(o); Second6(o);
    case _ => First7(o); Second7(o);
  }

  lemma {:induction false} TurnsAt8(o: Ops, t: nat)
    requires IsOps(o) && 8 <= t < 16
    ensures Turns(o, WorkOf(t), KeyOf(t), WordOf(t), MidOf(t), WorkOf(t + 1))
  {
    match t
    case 8 => First8(o); Second8(o);
    case 9 => First9(o); Second9(o);
    case 10 => First10(o); Second10(o);
    case 11 => First11(o); Second11(o);
    case 12 => First12(o); Second12(o);
    case 13 => First13(o); Second13(o);
    case 14 => First14(o); Second14(o);
    case _ => First15(o); Second15(o);
  }

  lemma {:induction false} TurnsAt16(o: Ops, t: nat)
    requires IsOps(o) && 16 <= t < 24
    ensures Turns(o, WorkOf(t), KeyOf(t), WordOf(t), MidOf(t), WorkOf(t + 1))
  {
    match t
    case 16 => First16(o); Second16(o);
    case 17 => First17(o); Second17(o);
    case 18 => First18(o); Second18(o);
    case 19 => First19(o); Second19(o);
    case 20 => First20(o); Second20(o);
    case 21 => First21(o); Second21(o);
    case 22 => First22(o); Second22(o);
    case _ => First23(o); Second23(o);
  }

  lemma {:induction false} TurnsAt24(o: Ops, t: nat)
    requires IsOps(o) && 24 <= t < 32
    ensures Turns(o, WorkOf(t), KeyOf(t), WordOf(t), MidOf(t), WorkOf(t + 1))
  {
    match t
    case 24 => First24(o); Second24(o);
    case 25 => First25(o); Second25(o);
    case 26 => First26(o); Second26(o);
    case 27 => First27(o); Second27(o);
    case 28 => First28(o); Second28(o);
    case 29 => First29(o); Second29(o);
    case 30 => First30(o); Second30(o);
    case _ => First31(o); Second31(o);
  }

  lemma {:induction false} TurnsAt32(o: Ops, t: nat)
    requires IsOps(o) && 32 <= t < 40
    ensures Turns(o, WorkOf(t), KeyOf(t), WordOf(t), MidOf(t), WorkOf(t + 1))
  {
    match t
    case 32 => First32(o); Second32(o);
    case 33 => First33(o); Second33(o);
    case 34 => First34(o); Second34(o);
    case 35 => First35(o); Second35(o);
    case 36 => First36(o); Second36(o);
    case 37 => First37(o); Second37(o);
    case 38 => First38(o); Second38(o);
    case _ => First39(o); Second39(o);
  }

  lemma {:induction false} TurnsAt40(o: Ops, t: nat)
    requires IsOps(o) && 40 <= t < 48
    ensures Turns(o, WorkOf(t), KeyOf(t), WordOf(t), MidOf(t), WorkOf(t + 1))
  {
    match t
    case 40 => First40(o); Second40(o);
    case 41 => First41(o); Second41(o);
    case 42 => First42(o); Second42(o);
    case 43 => First43(o); Second43(o);
    case 44 => First44(o); Second44(o);
    case 45 => First45(o); Second45(o);
    case 46 => First46(o); Second46(o);
    case _ => First47(o); Second47(o);
  }

  lemma {:induction false} TurnsAt48(o: Ops, t: nat)
    requires IsOps(o) && 48 <= t < 56
    ensures Turns(o, WorkOf(t), KeyOf(t), WordOf(t), MidOf(t), WorkOf(t + 1))
  {
    match t
    case 48 => First48(o); Second48(o);
    case 49 => First49(o); Second49(o);
    case 50 => First50(o); Second50(o);
    case 51 => First51(o); Second51(o);
    case 52 => First52(o); Second52(o);
    case 53 => First53(o); Second53(o);
    case 54 => First54(o); Second54(o);
    case _ => First55(o); Second55(o);
  }

  lemma {:induction false} TurnsAt56(o: Ops, t: nat)
    requires IsOps(o) && 56 <= t < 64
    ensures Turns(o, WorkOf(t), KeyOf(t), WordOf(t), MidOf(t), WorkOf(t + 1))
  {
    match t
    case 56 => First56(o); Second56(o);
    case 57 => First57(o); Second57(o);
    case 58 => First58(o); Second58(o);
    case 59 => First59(o); Second59(o);
    case 60 => First60(o); Second60(o);
    case 61 => First61(o); Second61(o);
    case 62 => First62(o); Second62(o);
    case _ => First63(o); Second63(o);
  }

  lemma {:induction false} TurnsAt(o: Ops, t: nat)
    requires IsOps(o) && 0 <= t < 64
    ensures Turns(o, WorkOf(t), KeyOf(t), WordOf(t), MidOf(t), WorkOf(t + 1))
  {
    if t < 8 {
      TurnsAt0(o, t);
    } else if t < 16 {
      TurnsAt8(o, t);
    } else if t < 24 {
      TurnsAt16(o, t);
    } else if t < 32 {
      TurnsAt24(o, t);
    } else if t < 40 {
      TurnsAt32(o, t);
    } else if t < 48 {
      TurnsAt40(o, t);
    } else if t < 56 {
      TurnsAt48(o, t);
    } else {
      TurnsAt56(o, t);
    }
  }


  lemma Key0(o: Ops) requires IsOps(o) ensures o.num(K0) == 0x428a2f98 { NumBy(K0, 4, 2, 8, 10, 2, 15, 9, 8); }
  lemma Key1(o: Ops) requires IsOps(o) ensures o.num(K1) == 0x71374491 { NumBy(K1, 7, 1, 3, 7, 4, 4, 9, 1); }
  lemma Key2(o: Ops) requires IsOps(o) ensures o.num(K2) == 0xb5c0fbcf { NumBy(K2, 11, 5, 12, 0, 15, 11, 12, 15); }
  lemma Key3(o: Ops) requires IsOps(o) ensures o.num(K3) == 0xe9b5dba5 { NumBy(K3, 14, 9, 11, 5, 13, 11, 10, 5); }
  lemma Key4(o: Ops) requires IsOps(o) ensures o.num(K4) == 0x3956c25b { NumBy(K4, 3, 9, 5, 6, 12, 2, 5, 11); }
  lemma Key5(o: Ops) requires IsOps(o) ensures o.num(K5) == 0x59f111f1 { NumBy(K5, 5, 9, 15, 1, 1, 1, 15, 1); }
  lemma Key6(o: Ops) requires IsOps(o) ensures o.num(K6) == 0x923f82a4 { NumBy(K6, 9, 2, 3, 15, 8, 2, 10, 4); }
  lemma Key7(o: Ops) requires IsOps(o) ensures o.num(K7) == 0xab1c5ed5 { NumBy(K7, 10, 11, 1, 12, 5, 14, 13, 5); }
  lemma Key8(o: Ops) requires IsOps(o) ensures o.num(K8) == 0xd807aa98 { NumBy(K8, 13, 8, 0, 7, 10, 10, 9, 8); }
  lemma Key9(o: Ops) requires IsOps(o) ensures o.num(K9) == 0x12835b01 { NumBy(K9, 1, 2, 8, 3, 5, 11, 0, 1); }
  lemma Key10(o: Ops) requires IsOps(o) ensures o.num(K10) == 0x243185be { NumBy(K10, 2, 4, 3, 1, 8, 5, 11, 14); }
  lemma Key11(o: Ops) requires IsOps(o) ensures o.num(K11) == 0x550c7dc3 { NumBy(K11, 5, 5, 0, 12, 7, 13, 12, 3); }
  lemma Key12(o: Ops) requires IsOps(o) ensures o.num(K12) == 0x72be5d74 { NumBy(K12, 7, 2, 11, 14, 5, 13, 7, 4); }
  lemma Key13(o: Ops) requires IsOps(o) ensures o.num(K13) == 0x80deb1fe { NumBy(K13, 8, 0, 13, 14, 11, 1, 15, 14); }
  lemma Key14(o: Ops) requires IsOps(o) ensures o.num(K14) == 0x9bdc06a7 { NumBy(K14, 9, 11, 13, 12, 0, 6, 10, 7); }
  lemma Key15(o: Ops) requires IsOps(o) ensures o.num(K15) == 0xc19bf174 { NumBy(K15, 12, 1, 9, 11, 15, 1, 7, 4); }
  lemma Key16(o: Ops) requires IsOps(o) ensures o.num(K16) == 0xe49b69c1 { NumBy(K16, 14, 4, 9, 11, 6, 9, 12, 1); }
  lemma Key17(o: Ops) requires IsOps(o) ensures o.num(K17) == 0xefbe4786 { NumBy(K17, 14, 15, 11, 14, 4, 7, 8, 6); }
  lemma Key18(o: Ops) requires IsOps(o) ensures o.num(K18) == 0x0fc19dc6 { NumBy(K18, 0, 15, 12, 1, 9, 13, 12, 6); }
  lemma Key19(o: Ops) requires IsOps(o) ensures o.num(K19) == 0x240ca1cc { NumBy(K19, 2, 4, 0, 12, 10, 1, 12, 12); }
  lemma Key20(o: Ops) requires IsOps(o) ensures o.num(K20) == 0x2de92c6f { NumBy(K20, 2, 13, 14, 9, 2, 12, 6, 15); }
  lemma Key21(o: Ops) requires IsOps(o) ensures o.num(K21) == 0x4a7484aa { NumBy(K21, 4, 10, 7, 4, 8, 4, 10, 10); }
  lemma Key22(o: Ops) requires IsOps(o) ensures o.num(K22) == 0x5cb0a9dc { NumBy(K22, 5, 12, 11, 0, 10, 9, 13, 12); }
  lemma Key23(o: Ops) requires IsOps(o) ensures o.num(K23) == 0x76f988da { NumBy(K23, 7, 6, 15, 9, 8, 8, 13, 10); }
  lemma Key24(o: Ops) requires IsOps(o) ensures o.num(K24) == 0x983e5152 { NumBy(K24, 9, 8, 3, 14, 5, 1, 5, 2); }
  lemma Key25(o: Ops) requires IsOps(o) ensures o.num(K25) == 0xa831c66d { NumBy(K25, 10, 8, 3, 1, 12, 6, 6, 13); }
  lemma Key26(o: Ops) requires IsOps(o) ensures o.num(K26) == 0xb00327c8 { NumBy(K26, 11, 0, 0, 3, 2, 7, 12, 8); }
  lemma Key27(o: Ops) requires IsOps(o) ensures o.num(K27) == 0xbf597fc7 { NumBy(K27, 11, 15, 5, 9, 7, 15, 12, 7); }
  lemma Key28(o: Ops) requires IsOps(o) ensures o.num(K28) == 0xc6e00bf3 { NumBy(K28, 12, 6, 14, 0, 0, 11, 15, 3); }
  lemma Key29(o: Ops) requires IsOps(o) ensures o.num(K29) == 0xd5a79147 { NumBy(K29, 13, 5, 10, 7, 9, 1, 4, 7); }
  lemma Key30(o: Ops) requires IsOps(o) ensures o.num(K30) == 0x06ca6351 { NumBy(K30, 0, 6, 12, 10, 6, 3, 5, 1); }
  lemma Key31(o: Ops) requires IsOps(o) ensures o.num(K31) == 0x14292967 { NumBy(K31, 1, 4, 2, 9, 2, 9, 6, 7); }
  lemma Key32(o: Ops) requires IsOps(o) ensures o.num(K32) == 0x27b70a85 { NumBy(K32, 2, 7, 11, 7, 0, 10, 8, 5); }
  lemma Key33(o: Ops) requires IsOps(o) ensures o.num(K33) == 0x2e1b2138 { NumBy(K33, 2, 14, 1, 11, 2, 1, 3, 8); }
  lemma Key34(o: Ops) requires IsOps(o) ensures o.num(K34) == 0x4d2c6dfc { NumBy(K34, 4, 13, 2, 12, 6, 13, 15, 12); }
  lemma Key35(o: Ops) requires IsOps(o) ensures o.num(K35) == 0x53380d13 { NumBy(K35, 5, 3, 3, 8, 0, 13, 1, 3); }
  lemma Key36(o: Ops) requires IsOps(o) ensures o.num(K36) == 0x650a7354 { NumBy(K36, 6, 5, 0, 10, 7, 3, 5, 4); }
  lemma Key37(o: Ops) requires IsOps(o) ensures o.num(K37) == 0x766a0abb { NumBy(K37, 7, 6, 6, 10, 0, 10, 11, 11); }
  lemma Key38(o: Ops) requires IsOps(o) ensures o.num(K38) == 0x81c2c92e { NumBy(K38, 8, 1, 12, 2, 12, 9, 2, 14); }
  lemma Key39(o: Ops) requires IsOps(o) ensures o.num(K39) == 0x92722c85 { NumBy(K39, 9, 2, 7, 2, 2, 12, 8, 5); }
  lemma Key40(o: Ops) requires IsOps(o) ensures o.num(K40) == 0xa2bfe8a1 { NumBy(K40, 10, 2, 11, 15, 14, 8, 10, 1); }
  lemma Key41(o: Ops) requires IsOps(o) ensures o.num(K41) == 0xa81a664b { NumBy(K41, 10, 8, 1, 10, 6, 6, 4, 11); }
  lemma Key42(o: Ops) requires IsOps(o) ensures o.num(K42) == 0xc24b8b70 { NumBy(K42, 12, 2, 4, 11, 8, 11, 7, 0); }
  lemma Key43(o: Ops) requires IsOps(o) ensures o.num(K43) == 0xc76c51a3 { NumBy(K43, 12, 7, 6, 12, 5, 1, 10, 3); }
  lemma Key44(o: Ops) requires IsOps(o) ensures o.num(K44) == 0xd192e819 { NumBy(K44, 13, 1, 9, 2, 14, 8, 1, 9); }
  lemma Key45(o: Ops) requires IsOps(o) ensures o.num(K45) == 0xd6990624 { NumBy(K45, 13, 6, 9, 9, 0, 6, 2, 4); }
  lemma Key46(o: Ops) requires IsOps(o) ensures o.num(K46) == 0xf40e3585 { NumBy(K46, 15, 4, 0, 14, 3, 5, 8, 5); }
  lemma Key47(o: Ops) requires IsOps(o) ensures o.num(K47) == 0x106aa070 { NumBy(K47, 1, 0, 6, 10, 10, 0, 7, 0); }
  lemma Key48(o: Ops) requires IsOps(o) ensures o.num(K48) == 0x19a4c116 { NumBy(K48, 1, 9, 10, 4, 12, 1, 1, 6); }
  lemma Key49(o: Ops) requires IsOps(o) ensures o.num(K49) == 0x1e376c08 { NumBy(K49, 1, 14, 3, 7, 6, 12, 0, 8); }
  lemma Key50(o: Ops) requires IsOps(o) ensures o.num(K50) == 0x2748774c { NumBy(K50, 2, 7, 4, 8, 7, 7, 4, 12); }
  lemma Key51(o: Ops) requires IsOps(o) ensures o.num(K51) == 0x34b0bcb5 { NumBy(K51, 3, 4, 11, 0, 11, 12, 11, 5); }
  lemma Key52(o: Ops) requires IsOps(o) ensures o.num(K52) == 0x391c0cb3 { NumBy(K52, 3, 9, 1, 12, 0, 12, 11, 3); }
  lemma Key53(o: Ops) requires IsOps(o) ensures o.num(K53) == 0x4ed8aa4a { NumBy(K53, 4, 14, 13, 8, 10, 10, 4, 10); }
  lemma Key54(o: Ops) requires IsOps(o) ensures o.num(K54) == 0x5b9cca4f { NumBy(K54, 5, 11, 9, 12, 12, 10, 4, 15); }
  lemma Key55(o: Ops) requires IsOps(o) ensures o.num(K55) == 0x682e6ff3 { NumBy(K55, 6, 8, 2, 14, 6, 15, 15, 3); }
  lemma Key56(o: Ops) requires IsOps(o) ensures o.num(K56) == 0x748f82ee { NumBy(K56, 7, 4, 8, 15, 8, 2, 14, 14); }
  lemma Key57(o: Ops) requires IsOps(o) ensures o.num(K57) == 0x78a5636f { NumBy(K57, 7, 8, 10, 5, 6, 3, 6, 15); }
  lemma Key58(o: Ops) requires IsOps(o) ensures o.num(K58) == 0x84c87814 { NumBy(K58, 8, 4, 12, 8, 7, 8, 1, 4); }
  lemma Key59(o: Ops) requires IsOps(o) ensures o.num(K59) == 0x8cc70208 { NumBy(K59, 8, 12, 12, 7, 0, 2, 0, 8); }
  lemma Key60(o: Ops) requires IsOps(o) ensures o.num(K60) == 0x90befffa { NumBy(K60, 9, 0, 11, 14, 15, 15, 15, 10); }
  lemma Key61(o: Ops) requires IsOps(o) ensures o.num(K61) == 0xa4506ceb { NumBy(K61, 10, 4, 5, 0, 6, 12, 14, 11); }
  lemma Key62(o: Ops) requires IsOps(o) ensures o.num(K62) == 0xbef9a3f7 { NumBy(K62, 11, 14, 15, 9, 10, 3, 15, 7); }
  lemma Key63(o: Ops) requires IsOps(o) ensures o.num(K63) == 0xc67178f2 { NumBy(K63, 12, 6, 7, 1, 7, 8, 15, 2); }

  lemma {:induction false} KeyIs0(o: Ops, t: nat)
    requires IsOps(o) && 0 <= t < 16
    ensures K(t) == o.num(KeyOf(t))
  {
    match t
    case 0 => Key0(o);
    case 1 => Key1(o);
    case 2 => Key2(o);
    case 3 => Key3(o);
    case 4 => Key4(o);
    case 5 => Key5(o);
    case 6 => Key6(o);
    case 7 => Key7(o);
    case 8 => Key8(o);
    case 9 => Key9(o);
    case 10 => Key10(o);
    case 11 => Key11(o);
    case 12 => Key12(o);
    case 13 => Key13(o);
    case 14 => Key14(o);
    case _ => Key15(o);
  }

  lemma {:induction false} KeyIs16(o: Ops, t: nat)
    requires IsOps(o) && 16 <= t < 32
    ensures K(t) == o.num(KeyOf(t))
  {
    match t
    case 16 => Key16(o);
    case 17 => Key17(o);
    case 18 => Key18(o);
    case 19 => Key19(o);
    case 20 => Key20(o);
    case 21 => Key21(o);
    case 22 => Key22(o);
    case 23 => Key23(o);
    case 24 => Key24(o);
    case 25 => Key25(o);
    case 26 => Key26(o);
    case 27 => Key27(o);
    case 28 => Key28(o);
    case 29 => Key29(o);
    case 30 => Key30(o);
    case _ => Key31(o);
  }

  lemma {:induction false} KeyIs32(o: Ops, t: nat)
    requires IsOps(o) && 32 <= t < 48
    ensures K(t) == o.num(KeyOf(t))
  {
    match t
    case 32 => Key32(o);
    case 33 => Key33(o);
    case 34 => Key34(o);
    case 35 => Key35(o);
    case 36 => Key36(o);
    case 37 => Key37(o);
    case 38 => Key38(o);
    case 39 => Key39(o);
    case 40 => Key40(o);
    case 41 => Key41(o);
    case 42 => Key42(o);
    case 43 => Key43(o);
    case 44 => Key44(o);
    case 45 => Key45(o);
    case 46 => Key46(o);
    case _ => Key47(o);
  }

  lemma {:induction false} KeyIs48(o: Ops, t: nat)
    requires IsOps(o) && 48 <= t < 64
    ensures K(t) == o.num(KeyOf(t))
  {
    match t
    case 48 => Key48(o);
    case 49 => Key49(o);
    case 50 => Key50(o);
    case 51 => Key51(o);
    case 52 => Key52(o);
    case 53 => Key53(o);
    case 54 => Key54(o);
    case 55 => Key55(o);
    case 56 => Key56(o);
    case 57 => Key57(o);
    case 58 => Key58(o);
    case 59 => Key59(o);
    case 60 => Key60(o);
    case 61 => Key61(o);
    case 62 => Key62(o);
    case _ => Key63(o);
  }

  lemma {:induction false} KeyIs(o: Ops, t: nat)
    requires IsOps(o) && 0 <= t < 64
    ensures K(t) == o.num(KeyOf(t))
  {
    if t < 16 {
      KeyIs0(o, t);
    } else if t < 32 {
      KeyIs16(o, t);
    } else if t < 48 {
      KeyIs32(o, t);
    } else {
      KeyIs48(o, t);
    }
  }

  // ----- The message -----

  predicate IsBlock(block: seq<byte>)
  {
    && |block| == 64 && block[0] == 0x61 && block[1] == 0x62 && block[2] == 0x63 && block[3] == 0x80 && block[63] == 24
    && forall i :: 4 <= i < 63 ==> block[i] == 0
  }

  lemma ThreeAndPadding(m: seq<byte>)
    requires m == [0x61, 0x62, 0x63]
    ensures IsBlock(Padded(m))
  {
    LengthBytes(8, 24);
  }

  lemma {:induction false} LengthBytes(n: nat, x: nat)
    requires n == 8 && x == 24
    ensures ToBE(n, x) == [0, 0, 0, 0, 0, 0, 0, 24]
  {
    NoMore(7, 0);
    assert ToBE(n, x) == ToBE(7, 0) + [24];
  }

  lemma {:induction false} NoMore(n: nat, x: nat)
    requires x == 0
    ensures ToBE(n, x) == Zeros(n)
    decreases n
  {
    if n > 0 {
      NoMore(n - 1, x);
    }
  }

  lemma WordsGiven(o: Ops)
    requires IsOps(o)
    ensures o.num(W0) == 0x6162_6380 && o.num(W15) == 24 && o.num(W1) == 0
  {
    NumBy(W0, 6, 1, 6, 2, 6, 3, 8, 0);
    NumBy(W15, 0, 0, 0, 0, 0, 0, 1, 8);
    NumBy(W1, 0, 0, 0, 0, 0, 0, 0, 0);
  }

  lemma {:induction false} GivenWord(o: Ops, block: seq<byte>, t: nat)
    requires IsOps(o) && IsBlock(block) && t < 16
    ensures W(block, t) == o.num(WordOf(t))
  {
    WordsGiven(o);
    assert W1 == W2 == W3 == W4 == W5 == W6 == W7 == W8 == W9 == W10 == W11 == W12 == W13 == W14;
    if t == 0 {
      assert BE32(block, 0) == 0x6162_6380;
    } else if t == 15 {
      assert BE32(block, 60) == 24;
    } else {
      assert BE32(block, 4 * t) == 0;
      assert WordOf(t) == W1;
    }
  }

  lemma {:induction false} ScheduleIs(o: Ops, block: seq<byte>, t: nat)
    requires IsOps(o) && IsBlock(block) && t < 64
    ensures W(block, t) == o.num(WordOf(t))
    decreases t
  {
    if t < 16 {
      GivenWord(o, block, t);
    } else {
      ScheduleIs(o, block, t - 16);
      ScheduleIs(o, block, t - 15);
      ScheduleIs(o, block, t - 7);
      ScheduleIs(o, block, t - 2);
      ExtendsAt(o, t);
      NextWordIs(o, block, t, WordOf(t - 16), WordOf(t - 15), WordOf(t - 7), WordOf(t - 2), NextOf(t), WordOf(t));
    }
  }

  lemma {:induction false} NextWordIs(o: Ops, block: seq<byte>, t: nat, w16: Hex, w15: Hex, w7: Hex, w2: Hex, n: Next, w: Hex)
    requires IsOps(o) && |block| == 64 && 16 <= t < 64 && Extends(o, w16, w15, w7, w2, n, w)
    requires W(block, t - 16) == o.num(w16) && W(block, t - 15) == o.num(w15) && W(block, t - 7) == o.num(w7) && W(block, t - 2) == o.num(w2)
    ensures W(block, t) == o.num(w)
  {
    ExtendIs(o, w16, w15, w7, w2, n, w);
    ScheduleStep(block, t, o.num(n.s0), o.num(n.s1), o.num(w16), o.num(w7), o.num(w));
  }

  lemma {:induction false} RoundsAre(o: Ops, block: seq<byte>, v: Eight, t: nat)
    requires IsOps(o) && IsBlock(block) && t <= 64 && v == Eights(o, V0)
    ensures Rounds(v, block, t) == Eights(o, WorkOf(t))
    decreases t
  {
    if t > 0 {
      RoundsAre(o, block, v, t - 1);
      ScheduleIs(o, block, t - 1);
      KeyIs(o, t - 1);
      TurnsAt(o, t - 1);
      TurnIs(o, WorkOf(t - 1), KeyOf(t - 1), WordOf(t - 1), MidOf(t - 1), WorkOf(t));
    }
  }

  // ----- The digest -----

  lemma StartA(o: Ops) requires IsOps(o) ensures o.num(V0.a) == 0x6a09e667 { NumBy(V0.a, 6, 10, 0, 9, 14, 6, 6, 7); }
  lemma StartB(o: Ops) requires IsOps(o) ensures o.num(V0.b) == 0xbb67ae85 { NumBy(V0.b, 11, 11, 6, 7, 10, 14, 8, 5); }
  lemma StartC(o: Ops) requires IsOps(o) ensures o.num(V0.c) == 0x3c6ef372 { NumBy(V0.c, 3, 12, 6, 14, 15, 3, 7, 2); }
  lemma StartD(o: Ops) requires IsOps(o) ensures o.num(V0.d) == 0xa54ff53a { NumBy(V0.d, 10, 5, 4, 15, 15, 5, 3, 10); }
  lemma StartE(o: Ops) requires IsOps(o) ensures o.num(V0.e) == 0x510e527f { NumBy(V0.e, 5, 1, 0, 14, 5, 2, 7, 15); }
  lemma StartF(o: Ops) requires IsOps(o) ensures o.num(V0.f) == 0x9b05688c { NumBy(V0.f, 9, 11, 0, 5, 6, 8, 8, 12); }
  lemma StartG(o: Ops) requires IsOps(o) ensures o.num(V0.g) == 0x1f83d9ab { NumBy(V0.g, 1, 15, 8, 3, 13, 9, 10, 11); }
  lemma StartH(o: Ops) requires IsOps(o) ensures o.num(V0.h) == 0x5be0cd19 { NumBy(V0.h, 5, 11, 14, 0, 12, 13, 1, 9); }

  lemma StartIs(o: Ops)
    requires IsOps(o)
    ensures IV == Eights(o, V0)
  {
    StartA(o);
    StartB(o);
    StartC(o);
    StartD(o);
    StartE(o);
    StartF(o);
    StartG(o);
    StartH(o);
  }

  lemma SumA(o: Ops) requires IsOps(o) ensures SUM.a == o.add(V0.a, V64.a) { assert SUM.a == AddHex(V0.a, V64.a); }
  lemma SumB(o: Ops) requires IsOps(o) ensures SUM.b == o.add(V0.b, V64.b) { assert SUM.b == AddHex(V0.b, V64.b); }
  lemma SumC(o: Ops) requires IsOps(o) ensures SUM.c == o.add(V0.c, V64.c) { assert SUM.c == AddHex(V0.c, V64.c); }
  lemma SumD(o: Ops) requires IsOps(o) ensures SUM.d == o.add(V0.d, V64.d) { assert SUM.d == AddHex(V0.d, V64.d); }
  lemma SumE(o: Ops) requires IsOps(o) ensures SUM.e == o.add(V0.e, V64.e) { assert SUM.e == AddHex(V0.e, V64.e); }
  lemma SumF(o: Ops) requires IsOps(o) ensures SUM.f == o.add(V0.f, V64.f) { assert SUM.f == AddHex(V0.f, V64.f); }
  lemma SumG(o: Ops) requires IsOps(o) ensures SUM.g == o.add(V0.g, V64.g) { assert SUM.g == AddHex(V0.g, V64.g); }
  lemma SumH(o: Ops) requires IsOps(o) ensures SUM.h == o.add(V0.h, V64.h) { assert SUM.h == AddHex(V0.h, V64.h); }

  lemma SumsAre(o: Ops)
    requires IsOps(o)
    ensures AddEight(Eights(o, V0), Eights(o, V64)) == Eights(o, SUM)
  {
    SumA(o);
    AddOf(o, V0.a, V64.a);
    SumB(o);
    AddOf(o, V0.b, V64.b);
    SumC(o);
    AddOf(o, V0.c, V64.c);
    SumD(o);
    AddOf(o, V0.d, V64.d);
    SumE(o);
    AddOf(o, V0.e, V64.e);
    SumF(o);
    AddOf(o, V0.f, V64.f);
    SumG(o);
    AddOf(o, V0.g, V64.g);
    SumH(o);
    AddOf(o, V0.h, V64.h);
  }

  /** The bytes of a word, the highest first. */
  function Bytes(w: Hex): (b: seq<byte>)
    ensures |b| == 4
  {
    [Pair(w.h7, w.h6), Pair(w.h5, w.h4), Pair(w.h3, w.h2), Pair(w.h1, w.h0)]
  }

  lemma {:induction false} BytesAre(w: Hex, n: nat)
    requires n == 4
    ensures ToBE(n, Num(w)) == Bytes(w)
  {
    var x := Num(w);
    LowByte(x, Pair(w.h3, w.h2) + 0x100 * Pair(w.h5, w.h4) + 0x1_0000 * Pair(w.h7, w.h6), Pair(w.h1, w.h0));
    LowByte(x / 256, Pair(w.h5, w.h4) + 0x100 * Pair(w.h7, w.h6), Pair(w.h3, w.h2));
    LowByte(x / 256 / 256, Pair(w.h7, w.h6), Pair(w.h5, w.h4));
    OneByte(n - 3, x / 256 / 256 / 256, Pair(w.h7, w.h6));
    assert ToBE(n, x) == ToBE(n - 1, x / 256) + [x % 256];
    assert ToBE(n - 1, x / 256) == ToBE(n - 2, x / 256 / 256) + [x / 256 % 256];
    assert ToBE(n - 2, x / 256 / 256) == ToBE(n - 3, x / 256 / 256 / 256) + [x / 256 / 256 % 256];
  }

  lemma {:induction false} OneByte(n: nat, x: nat, b: byte)
    requires n == 1 && x == b
    ensures ToBE(n, x) == [b]
  {
    assert ToBE(n - 1, x / 256) == [];
  }

  lemma {:induction false} WordBytes(o: Ops, ws: seq<word>, w: Hex, n: nat)
    requires IsOps(o) && 0 < n <= |ws| && ws[n - 1] == o.num(w)
    ensures BytesOf(ws, n) == BytesOf(ws, n - 1) + Bytes(w)
  {
    assert o.num(w) == Num(w);
    BytesAre(w, 4);
  }

  function WorkAt(v: Work, i: nat): Hex
    requires i < 8
  {
    match i case 0 => v.a case 1 => v.b case 2 => v.c case 3 => v.d case 4 => v.e case 5 => v.f case 6 => v.g case _ => v.h
  }

  /** The first n words of a value in bytes. */
  function WorkBytes(v: Work, n: nat): (b: seq<byte>)
    requires n <= 8
    ensures |b| == 4 * n
    decreases n, v
  {
    if n == 0 then [] else WorkBytes(v, n - 1) + Bytes(WorkAt(v, n - 1))
  }

  lemma {:induction false} AllBytes(o: Ops, v: Work, ws: seq<word>, n: nat)
    requires IsOps(o) && ws == Words(Eights(o, v)) && n <= 8
    ensures BytesOf(ws, n) == WorkBytes(v, n)
    decreases n
  {
    if n > 0 {
      AllBytes(o, v, ws, n - 1);
      WordBytes(o, ws, WorkAt(v, n - 1), n);
    }
  }

  lemma {:induction false} CompressIs(o: Ops, block: seq<byte>, n: nat)
    requires IsOps(o) && IsBlock(block) && n == 64
    ensures Compress(IV, block) == Eights(o, SUM)
  {
    StartIs(o);
    RoundsAre(o, block, IV, n);
    SumsAre(o);
    assert WorkOf(n) == V64;
  }

  lemma {:induction false} OneBlockDigest(o: Ops, m: seq<byte>, n: nat)
    requires IsOps(o) && m == [0x61, 0x62, 0x63] && n == 8
    ensures Sha256Of(m) == BytesOf(Words(Eights(o, SUM)), n)
  {
    ThreeAndPadding(m);
    OneBlock(Compress, IV, Padded(m));
    CompressIs(o, Padded(m), 64);
  }

  lemma BytesA() ensures Bytes(SUM.a) == [0xba, 0x78, 0x16, 0xbf] { }
  lemma BytesB() ensures Bytes(SUM.b) == [0x8f, 0x01, 0xcf, 0xea] { }
  lemma BytesC() ensures Bytes(SUM.c) == [0x41, 0x41, 0x40, 0xde] { }
  lemma BytesD() ensures Bytes(SUM.d) == [0x5d, 0xae, 0x22, 0x23] { }
  lemma BytesE() ensures Bytes(SUM.e) == [0xb0, 0x03, 0x61, 0xa3] { }
  lemma BytesF() ensures Bytes(SUM.f) == [0x96, 0x17, 0x7a, 0x9c] { }
  lemma BytesG() ensures Bytes(SUM.g) == [0xb4, 0x10, 0xff, 0x61] { }
  lemma BytesH() ensures Bytes(SUM.h) == [0xf2, 0x00, 0x15, 0xad] { }

  lemma {:induction false} OneMore(v: Work, n: nat, a: seq<byte>, b: seq<byte>)
    requires 0 < n <= 8 && WorkBytes(v, n - 1) == a && Bytes(WorkAt(v, n - 1)) == b
    ensures WorkBytes(v, n) == a + b
  {
  }

  lemma {:induction false} EightInOrder(v: Work, n: nat)
    requires n == 8
    ensures WorkBytes(v, n) == [] + Bytes(v.a) + Bytes(v.b) + Bytes(v.c) + Bytes(v.d) + Bytes(v.e) + Bytes(v.f) + Bytes(v.g) + Bytes(v.h)
  {
    NoBytes(v, n - 8);
    OneMore(v, n - 7, [], Bytes(v.a));
    OneMore(v, n - 6, [] + Bytes(v.a), Bytes(v.b));
    OneMore(v, n - 5, [] + Bytes(v.a) + Bytes(v.b), Bytes(v.c));
    OneMore(v, n - 4, [] + Bytes(v.a) + Bytes(v.b) + Bytes(v.c), Bytes(v.d));
    OneMore(v, n - 3, [] + Bytes(v.a) + Bytes(v.b) + Bytes(v.c) + Bytes(v.d), Bytes(v.e));
    OneMore(v, n - 2, [] + Bytes(v.a) + Bytes(v.b) + Bytes(v.c) + Bytes(v.d) + Bytes(v.e), Bytes(v.f));
    OneMore(v, n - 1, [] + Bytes(v.a) + Bytes(v.b) + Bytes(v.c) + Bytes(v.d) + Bytes(v.e) + Bytes(v.f), Bytes(v.g));
    OneMore(v, n, [] + Bytes(v.a) + Bytes(v.b) + Bytes(v.c) + Bytes(v.d) + Bytes(v.e) + Bytes(v.f) + Bytes(v.g), Bytes(v.h));
  }

  lemma {:induction false} NoBytes(v: Work, n: nat)
    requires n == 0
    ensures WorkBytes(v, n) == []
  {
  }

  lemma {:induction false} DigestBy(o: Ops, m: seq<byte>, n: nat)
    requires IsOps(o) && m == [0x61, 0x62, 0x63] && n == 8
    ensures Sha256Of(m) == WorkBytes(SUM, n)
  {
    OneBlockDigest(o, m, n);
    AllBytes(o, SUM, Words(Eights(o, SUM)), n);
  }

  /** The digest of "abc". */
  lemma {:induction false} DigestExample(m: seq<byte>)
    requires m == [0x61, 0x62, 0x63]
    ensures Sha256Of(m) == [] + [0xba, 0x78, 0x16, 0xbf] + [0x8f, 0x01, 0xcf, 0xea] + [0x41, 0x41, 0x40, 0xde] + [0x5d, 0xae, 0x22, 0x23]
      + [0xb0, 0x03, 0x61, 0xa3] + [0x96, 0x17, 0x7a, 0x9c] + [0xb4, 0x10, 0xff, 0x61] + [0xf2, 0x00, 0x15, 0xad]
  {
    DigestBy(Ops((x: Hex) => Num(x), (x: Hex, y: Hex) => AddHex(x, y), (x: Hex, y: Hex, z: Hex) => ChHex(x, y, z),
                 (x: Hex, y: Hex, z: Hex) => MajHex(x, y, z), (x: Hex) => BigSigma0Hex(x), (x: Hex) => BigSigma1Hex(x),
                 (x: Hex) => SmallSigma0Hex(x), (x: Hex) => SmallSigma1Hex(x)), m, 8);
    SumBytes(8);
  }

  lemma {:induction false} SumBytes(n: nat)
    requires n == 8
    ensures WorkBytes(SUM, n) == [] + [0xba, 0x78, 0x16, 0xbf] + [0x8f, 0x01, 0xcf, 0xea] + [0x41, 0x41, 0x40, 0xde] + [0x5d, 0xae, 0x22, 0x23]
      + [0xb0, 0x03, 0x61, 0xa3] + [0x96, 0x17, 0x7a, 0x9c] + [0xb4, 0x10, 0xff, 0x61] + [0xf2, 0x00, 0x15, 0xad]
  {
    EightInOrder(SUM, n);
    BytesA();
    BytesB();
    BytesC();
    BytesD();
    BytesE();
    BytesF();
    BytesG();
    BytesH();
  }
}
