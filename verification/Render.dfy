/** The four renderers: words of pixels made with masks and a colour cache, and the rule
    for one pixel that they all follow. */
module Render {
  import opened Bits
  import opened Chargen

  // ----- Choosing between two colours with a mask -----

  function Pick(sel: bool, fg: nat, bg: nat): nat
  {
    if sel then fg else bg
  }

  /** (fg & mask) | (bg & complement) */
  function Mix(f: nat, m: nat, b: nat, n: nat): nat
  {
    Or(And(f, m), And(b, n))
  }

  /** It can be taken on the low unit and on the rest separately. */
  lemma {:induction false} MixSplit(w: nat, p: nat, f: nat, m: nat, b: nat, n: nat, f0: nat, m0: nat, b0: nat, n0: nat, x: nat, y: nat, z: nat, t: nat)
    requires p == Pow2(w) && f0 < p && m0 < p && b0 < p && n0 < p
    requires x == f * p + f0 && y == m * p + m0 && z == b * p + b0 && t == n * p + n0
    ensures Mix(x, y, z, t) == Mix(f, m, b, n) * p + Mix(f0, m0, b0, n0)
  {
    AndSplitAt(w, f, f0, m, m0, x, y);
    AndSplitAt(w, b, b0, n, n0, z, t);
    AndBound(f0, m0);
    AndBound(b0, n0);
    OrSplitAt(w, And(f, m), And(f0, m0), And(b, n), And(b0, n0), And(x, y), And(z, t));
  }

  /** On one unit it chooses. */
  lemma {:induction false} MixUnit(w: nat, p: nat, fg: nat, bg: nat, sel: bool)
    requires p == Pow2(w) && fg < p && bg < p
    ensures Mix(fg, Pick(sel, p - 1, 0), bg, Pick(sel, 0, p - 1)) == Pick(sel, fg, bg)
  {
    AndOnes(w, fg);
    AndOnes(w, bg);
  }

  lemma Width(k: nat, p: nat) returns (w: nat)
    requires (k == 8 && p == 256) || (k == 16 && p == 0x1_0000)
    ensures w == k && Pow2(w) == p
  {
    Pow2Values();
    w := k;
  }

  // ----- The mask tables -----

  /** expand4: four pixels of a byte each, the leftmost in the lowest byte. */
  function Expand4(n: nat): word
    requires n < 16
  {
    match n
    case 0 => 0x00000000
    case 1 => 0xff000000
    case 2 => 0x00ff0000
    case 3 => 0xffff0000
    case 4 => 0x0000ff00
    case 5 => 0xff00ff00
    case 6 => 0x00ffff00
    case 7 => 0xffffff00
    case 8 => 0x000000ff
    case 9 => 0xff0000ff
    case 10 => 0x00ff00ff
    case 11 => 0xffff00ff
    case 12 => 0x0000ffff
    case 13 => 0xff00ffff
    case 14 => 0x00ffffff
    case 15 => 0xffffffff
  }

  /** expand2: two pixels of a half word each. */
  function Expand2(n: nat): word
    requires n < 4
  {
    match n
    case 0 => 0x00000000
    case 1 => 0xffff0000
    case 2 => 0x0000ffff
    case 3 => 0xffffffff
  }

  function Four(a: nat, b: nat, c: nat, d: nat): nat
  {
    a + 0x100 * b + 0x1_0000 * c + 0x100_0000 * d
  }

  function Two(a: nat, b: nat): nat
  {
    a + 0x1_0000 * b
  }

  /** Four bytes at once, the lowest first. */
  lemma MixFour(fg: byte, bg: byte, m0: byte, m1: byte, m2: byte, m3: byte, n0: byte, n1: byte, n2: byte, n3: byte,
                fw: nat, m: nat, bw: nat, n: nat)
    requires fw == Four(fg, fg, fg, fg) && bw == Four(bg, bg, bg, bg)
    requires m == Four(m0, m1, m2, m3) && n == Four(n0, n1, n2, n3)
    ensures Mix(fw, m, bw, n) == Four(Mix(fg, m0, bg, n0), Mix(fg, m1, bg, n1), Mix(fg, m2, bg, n2), Mix(fg, m3, bg, n3))
  {
    var w := Width(8, 256);
    var f2, y2, b2, z2 := fg * 256 + fg, m3 * 256 + m2, bg * 256 + bg, n3 * 256 + n2;
    var f3, y3, b3, z3 := f2 * 256 + fg, y2 * 256 + m1, b2 * 256 + bg, z2 * 256 + n1;
    MixSplit(w, 256, fg, m3, bg, n3, fg, m2, bg, n2, f2, y2, b2, z2);
    MixSplit(w, 256, f2, y2, b2, z2, fg, m1, bg, n1, f3, y3, b3, z3);
    MixSplit(w, 256, f3, y3, b3, z3, fg, m0, bg, n0, fw, m, bw, n);
  }

  lemma MixTwo(fg: nat, bg: nat, m0: nat, m1: nat, n0: nat, n1: nat, fw: nat, m: nat, bw: nat, n: nat)
    requires fg < 0x1_0000 && bg < 0x1_0000 && m0 < 0x1_0000 && m1 < 0x1_0000 && n0 < 0x1_0000 && n1 < 0x1_0000
    requires fw == Two(fg, fg) && bw == Two(bg, bg) && m == Two(m0, m1) && n == Two(n0, n1)
    ensures Mix(fw, m, bw, n) == Two(Mix(fg, m0, bg, n0), Mix(fg, m1, bg, n1))
  {
    var w := Width(16, 0x1_0000);
    MixSplit(w, 0x1_0000, fg, m1, bg, n1, fg, m0, bg, n0, fw, m, bw, n);
  }

  /** The tables hold the masks: a unit of ones for each bit that is set, the leftmost lowest. */
  lemma Expand4Is(n: nat)
    requires n < 16
    ensures Expand4(n) == Four(Pick(n / 8 % 2 == 1, 255, 0), Pick(n / 4 % 2 == 1, 255, 0), Pick(n / 2 % 2 == 1, 255, 0), Pick(n % 2 == 1, 255, 0))
  {
    if n < 8 {
      Expand4Low(n);
    } else {
      Expand4High(n);
    }
  }

  lemma Expand4Low(n: nat)
    requires n < 8
    ensures Expand4(n) == Four(Pick(n / 8 % 2 == 1, 255, 0), Pick(n / 4 % 2 == 1, 255, 0), Pick(n / 2 % 2 == 1, 255, 0), Pick(n % 2 == 1, 255, 0))
  {
  }

  lemma Expand4High(n: nat)
    requires 8 <= n < 16
    ensures Expand4(n) == Four(Pick(n / 8 % 2 == 1, 255, 0), Pick(n / 4 % 2 == 1, 255, 0), Pick(n / 2 % 2 == 1, 255, 0), Pick(n % 2 == 1, 255, 0))
  {
  }

  lemma Expand2Is(n: nat)
    requires n < 4
    ensures Expand2(n) == Two(Pick(n / 2 % 2 == 1, 0xffff, 0), Pick(n % 2 == 1, 0xffff, 0))
  {
  }

  /** The complement of a mask picks the other way round. */
  lemma NotFour(a: bool, b: bool, c: bool, d: bool, m: word)
    requires m == Four(Pick(a, 255, 0), Pick(b, 255, 0), Pick(c, 255, 0), Pick(d, 255, 0))
    ensures NotWord(m) == Four(Pick(a, 0, 255), Pick(b, 0, 255), Pick(c, 0, 255), Pick(d, 0, 255))
  {
  }

  /** What the code writes for four pixels, from two colour words and the mask of four bits. */
  lemma Blend4(fg: byte, bg: byte, a: bool, b: bool, c: bool, d: bool, m: word)
    requires m == Four(Pick(a, 255, 0), Pick(b, 255, 0), Pick(c, 255, 0), Pick(d, 255, 0))
    ensures fg * 0x0101_0101 < 0x1_0000_0000 && bg * 0x0101_0101 < 0x1_0000_0000
    ensures OrWord(AndWord(fg * 0x0101_0101, m), AndWord(bg * 0x0101_0101, NotWord(m))) == Four(Pick(a, fg, bg), Pick(b, fg, bg), Pick(c, fg, bg), Pick(d, fg, bg))
  {
    NotFour(a, b, c, d, m);
    Blend4By(fg, bg, a, b, c, d, m, NotWord(m));
  }

  lemma Blend4By(fg: byte, bg: byte, a: bool, b: bool, c: bool, d: bool, m: word, n: word)
    requires m == Four(Pick(a, 255, 0), Pick(b, 255, 0), Pick(c, 255, 0), Pick(d, 255, 0))
    requires n == Four(Pick(a, 0, 255), Pick(b, 0, 255), Pick(c, 0, 255), Pick(d, 0, 255))
    ensures Mix(fg * 0x0101_0101, m, bg * 0x0101_0101, n) == Four(Pick(a, fg, bg), Pick(b, fg, bg), Pick(c, fg, bg), Pick(d, fg, bg))
  {
    var m0, n0 := MixByte(fg, bg, a);
    var m1, n1 := MixByte(fg, bg, b);
    var m2, n2 := MixByte(fg, bg, c);
    var m3, n3 := MixByte(fg, bg, d);
    MixFour(fg, bg, m0, m1, m2, m3, n0, n1, n2, n3, fg * 0x0101_0101, m, bg * 0x0101_0101, n);
  }

  lemma MixByte(fg: byte, bg: byte, sel: bool) returns (m: byte, n: byte)
    ensures m == Pick(sel, 255, 0) && n == Pick(sel, 0, 255) && Mix(fg, m, bg, n) == Pick(sel, fg, bg)
  {
    var w := Width(8, 256);
    MixUnit(w, 256, fg, bg, sel);
    m, n := Pick(sel, 255, 0), Pick(sel, 0, 255);
  }

  /** And for two pixels of a half word each, from the mask of two bits. */
  lemma Blend2(fg: nat, bg: nat, a: bool, b: bool, m: word)
    requires m == Two(Pick(a, 0xffff, 0), Pick(b, 0xffff, 0)) && fg < 0x1_0000 && bg < 0x1_0000
    ensures fg * 0x0001_0001 < 0x1_0000_0000 && bg * 0x0001_0001 < 0x1_0000_0000
    ensures OrWord(AndWord(fg * 0x0001_0001, m), AndWord(bg * 0x0001_0001, NotWord(m))) == Two(Pick(a, fg, bg), Pick(b, fg, bg))
  {
    Blend2By(fg, bg, a, b, m, NotWord(m));
  }

  lemma Blend2By(fg: nat, bg: nat, a: bool, b: bool, m: word, n: word)
    requires fg < 0x1_0000 && bg < 0x1_0000
    requires m == Two(Pick(a, 0xffff, 0), Pick(b, 0xffff, 0)) && n == Two(Pick(a, 0, 0xffff), Pick(b, 0, 0xffff))
    ensures Mix(fg * 0x0001_0001, m, bg * 0x0001_0001, n) == Two(Pick(a, fg, bg), Pick(b, fg, bg))
  {
    var w := Width(16, 0x1_0000);
    MixUnit(w, 0x1_0000, fg, bg, a);
    MixUnit(w, 0x1_0000, fg, bg, b);
    MixTwo(fg, bg, Pick(a, 0xffff, 0), Pick(b, 0xffff, 0), Pick(a, 0, 0xffff), Pick(b, 0, 0xffff), fg * 0x0001_0001, m, bg * 0x0001_0001, n);
  }

  // ----- The rule for one pixel -----

  /** What a line is made from: the font, one row of cells, and the column under the cursor
      (or a number that is no column). */
  datatype Look = Look(font: seq<seq<byte>>, row: seq<Cell>, cursor: int)

  predicate FontOk(font: seq<seq<byte>>)
  {
    |font| == 224 && (forall g :: 0 <= g < 224 ==> |font[g]| == 16) && forall y :: 0 <= y < 16 ==> font[0][y] == 0
  }

  /** Every cell holds a glyph of the font. */
  predicate LookOk(l: Look)
  {
    FontOk(l.font) && forall c :: 0 <= c < |l.row| ==> l.row[c].ch < 224
  }

  /** ubiqos_chargen_glyph: every character has a glyph in the font. */
  function Glyph(c: byte): (g: byte)
    ensures g < 224 && (g == 0 <==> c <= 32)
  {
    if c < 32 then 0 else c - 32
  }

  /** The two colour indices of a cell, exchanged under the cursor. */
  function Colours(l: Look, col: nat): (p: (nat, nat))
    requires col < |l.row|
    ensures p.0 < 16 && p.1 < 16
  {
    var a := l.row[col].attr;
    if col == l.cursor then (a % 16, a / 16) else (a / 16, a % 16)
  }

  /** Is the bit 0x80 >> x set? */
  function Lit(bits: byte, x: nat): bool
    requires x < 8
  {
    (match x case 0 => bits / 128 case 1 => bits / 64 case 2 => bits / 32 case 3 => bits / 16
             case 4 => bits / 8 case 5 => bits / 4 case 6 => bits / 2 case 7 => bits) % 2 == 1
  }

  /** The pixel x of scanline gy: the foreground where the font's bit is set. */
  function PixelAt(pal: seq<nat>, l: Look, gy: nat, x: nat): nat
    requires |pal| == 16 && LookOk(l) && gy < 16 && x < 8 * |l.row|
  {
    var (fg, bg) := Colours(l, x / 8);
    if Lit(l.font[l.row[x / 8].ch][gy], x % 8) then pal[fg] else pal[bg]
  }

  /** Word k of a scanline of one-byte pixels, and of two-byte pixels. */
  function Word8(pal: seq<nat>, l: Look, gy: nat, k: nat): nat
    requires |pal| == 16 && LookOk(l) && gy < 16 && k < 2 * |l.row|
  {
    Four(PixelAt(pal, l, gy, 4 * k), PixelAt(pal, l, gy, 4 * k + 1), PixelAt(pal, l, gy, 4 * k + 2), PixelAt(pal, l, gy, 4 * k + 3))
  }

  function Word16(pal: seq<nat>, l: Look, gy: nat, k: nat): nat
    requires |pal| == 16 && LookOk(l) && gy < 16 && k < 4 * |l.row|
  {
    Two(PixelAt(pal, l, gy, 2 * k), PixelAt(pal, l, gy, 2 * k + 1))
  }

  /** The byte j of a word as it lies in memory, and the half word j. */
  function ByteOf(w: nat, j: nat): nat
    requires j < 4
  {
    (match j case 0 => w case 1 => w / 0x100 case 2 => w / 0x1_0000 case 3 => w / 0x100_0000) % 0x100
  }

  function HalfOf(w: nat, j: nat): nat
    requires j < 2
  {
    (if j == 0 then w else w / 0x1_0000) % 0x1_0000
  }

  /** The bytes of the words are the pixels in order. */
  lemma PixelsOfWords(pal: seq<nat>, l: Look, gy: nat, x: nat)
    requires |pal| == 16 && LookOk(l) && gy < 16 && x < 8 * |l.row| && forall i :: 0 <= i < 16 ==> pal[i] < 0x100
    ensures ByteOf(Word8(pal, l, gy, x / 4), x % 4) == PixelAt(pal, l, gy, x)
  {
    BytesOfFour(PixelAt(pal, l, gy, 4 * (x / 4)), PixelAt(pal, l, gy, 4 * (x / 4) + 1),
                PixelAt(pal, l, gy, 4 * (x / 4) + 2), PixelAt(pal, l, gy, 4 * (x / 4) + 3));
  }

  lemma BytesOfFour(a: byte, b: byte, c: byte, d: byte)
    ensures ByteOf(Four(a, b, c, d), 0) == a && ByteOf(Four(a, b, c, d), 1) == b
    ensures ByteOf(Four(a, b, c, d), 2) == c && ByteOf(Four(a, b, c, d), 3) == d
  {
    var w, x, y := Four(a, b, c, d), (d * 256 + c) * 256 + b, d * 256 + c;
    LowByte(x, a, w);
    LowByte(y, b, x);
    LowByte(d, c, y);
    assert w / 0x1_0000 == w / 256 / 256 && w / 0x100_0000 == w / 256 / 256 / 256;
  }

  lemma LowByte(q: nat, b: byte, w: nat)
    requires w == q * 256 + b
    ensures w % 256 == b && w / 256 == q
  {
  }

  lemma PixelsOfHalves(pal: seq<nat>, l: Look, gy: nat, x: nat)
    requires |pal| == 16 && LookOk(l) && gy < 16 && x < 8 * |l.row| && forall i :: 0 <= i < 16 ==> pal[i] < 0x1_0000
    ensures HalfOf(Word16(pal, l, gy, x / 2), x % 2) == PixelAt(pal, l, gy, x)
  {
    HalvesOfTwo(PixelAt(pal, l, gy, 2 * (x / 2)), PixelAt(pal, l, gy, 2 * (x / 2) + 1));
  }

  lemma HalvesOfTwo(a: nat, b: nat)
    requires a < 0x1_0000 && b < 0x1_0000
    ensures HalfOf(Two(a, b), 0) == a && HalfOf(Two(a, b), 1) == b
  {
  }

  // ----- What the code writes for one cell -----

  function Masked(fg: word, bg: word, m: word): word
  {
    OrWord(AndWord(fg, m), AndWord(bg, NotWord(m)))
  }

  /** The pixels of one cell. */
  lemma CellPixel(pal: seq<nat>, l: Look, gy: nat, col: nat, x: nat)
    requires |pal| == 16 && LookOk(l) && gy < 16 && col < |l.row| && x < 8
    ensures PixelAt(pal, l, gy, 8 * col + x)
            == Pick(Lit(l.font[l.row[col].ch][gy], x), pal[Colours(l, col).0], pal[Colours(l, col).1])
  {
    assert (8 * col + x) / 8 == col && (8 * col + x) % 8 == x;
  }

  /** A bit of a byte from its quotient and remainder by 2^k. */
  lemma HighBit(bits: nat, n: nat)
    requires n == bits / 16
    ensures bits / 128 == n / 8 && bits / 64 == n / 4 && bits / 32 == n / 2
  {
  }

  lemma LowBit(bits: nat, q: nat, r: nat)
    requires bits == 16 * q + r
    ensures bits / 8 % 2 == r / 8 % 2 && bits / 4 % 2 == r / 4 % 2 && bits / 2 % 2 == r / 2 % 2 && bits % 2 == r % 2
  {
    LowBit8(bits, q, r);
    LowBit4(bits, q, r);
    LowBit2(bits, q, r);
  }

  lemma LowBit8(bits: nat, q: nat, r: nat)
    requires bits == 16 * q + r
    ensures bits / 8 % 2 == r / 8 % 2
  {
    assert bits / 8 == 2 * q + r / 8;
  }

  lemma LowBit4(bits: nat, q: nat, r: nat)
    requires bits == 16 * q + r
    ensures bits / 4 % 2 == r / 4 % 2
  {
    assert bits / 4 == 4 * q + r / 4;
  }

  lemma LowBit2(bits: nat, q: nat, r: nat)
    requires bits == 16 * q + r
    ensures bits / 2 % 2 == r / 2 % 2 && bits % 2 == r % 2
  {
    assert bits / 2 == 8 * q + r / 2;
  }

  /** The bits of the two nibbles, in the order in which they are drawn. */
  lemma Nibbles(bits: byte)
    ensures Lit(bits, 0) == (bits / 16 / 8 % 2 == 1) && Lit(bits, 1) == (bits / 16 / 4 % 2 == 1)
    ensures Lit(bits, 2) == (bits / 16 / 2 % 2 == 1) && Lit(bits, 3) == (bits / 16 % 2 == 1)
    ensures Lit(bits, 4) == (bits % 16 / 8 % 2 == 1) && Lit(bits, 5) == (bits % 16 / 4 % 2 == 1)
    ensures Lit(bits, 6) == (bits % 16 / 2 % 2 == 1) && Lit(bits, 7) == (bits % 16 % 2 == 1)
  {
    HighBit(bits, bits / 16);
    LowBit(bits, bits / 16, bits % 16);
  }

  lemma Pair(b: nat, n: nat)
    requires n == b % 4
    ensures n / 2 % 2 == b / 2 % 2 && n % 2 == b % 2
  {
    var q := b / 4;
    assert b == 4 * q + n && b / 2 == 2 * q + n / 2;
    EvenMore(q, n / 2);
    EvenMore(2 * q, n);
  }

  lemma EvenMore(q: nat, x: nat)
    ensures (2 * q + x) % 2 == x % 2
  {
  }

  lemma Pairs(bits: byte)
    ensures Lit(bits, 0) == (bits / 64 % 4 / 2 % 2 == 1) && Lit(bits, 1) == (bits / 64 % 4 % 2 == 1)
    ensures Lit(bits, 2) == (bits / 16 % 4 / 2 % 2 == 1) && Lit(bits, 3) == (bits / 16 % 4 % 2 == 1)
    ensures Lit(bits, 4) == (bits / 4 % 4 / 2 % 2 == 1) && Lit(bits, 5) == (bits / 4 % 4 % 2 == 1)
    ensures Lit(bits, 6) == (bits % 4 / 2 % 2 == 1) && Lit(bits, 7) == (bits % 4 % 2 == 1)
  {
    Pair(bits / 64, bits / 64 % 4);
    Pair(bits / 16, bits / 16 % 4);
    Pair(bits / 4, bits / 4 % 4);
    Pair(bits, bits % 4);
    Halved(bits);
  }

  lemma Halved(bits: nat)
    ensures bits / 64 / 2 == bits / 128 && bits / 16 / 2 == bits / 32 && bits / 4 / 2 == bits / 8 && bits / 1 == bits
  {
  }

  /** The eight pixels of a cell. */
  function Eight(pal: seq<nat>, l: Look, gy: nat, col: nat): (p: seq<nat>)
    requires |pal| == 16 && LookOk(l) && gy < 16 && col < |l.row|
    ensures |p| == 8
  {
    seq<nat>(8, x requires 0 <= x < 8 => PixelAt(pal, l, gy, 8 * col + x))
  }

  predicate Chosen(p: seq<nat>, bits: byte, fg: nat, bg: nat)
  {
    |p| == 8 && forall x :: 0 <= x < 8 ==> p[x] == Pick(Lit(bits, x), fg, bg)
  }

  lemma EightChosen(pal: seq<nat>, l: Look, gy: nat, col: nat)
    requires |pal| == 16 && LookOk(l) && gy < 16 && col < |l.row|
    ensures Chosen(Eight(pal, l, gy, col), l.font[l.row[col].ch][gy], pal[Colours(l, col).0], pal[Colours(l, col).1])
  {
    forall x | 0 <= x < 8
      ensures Eight(pal, l, gy, col)[x] == Pick(Lit(l.font[l.row[col].ch][gy], x), pal[Colours(l, col).0], pal[Colours(l, col).1])
    {
      CellPixel(pal, l, gy, col, x);
    }
  }

  lemma EightWord(pal: seq<nat>, l: Look, gy: nat, col: nat, j: nat)
    requires |pal| == 16 && LookOk(l) && gy < 16 && col < |l.row| && j < 2
    ensures var p := Eight(pal, l, gy, col); Word8(pal, l, gy, 2 * col + j) == Four(p[4 * j], p[4 * j + 1], p[4 * j + 2], p[4 * j + 3])
  {
    assert 4 * (2 * col + j) == 8 * col + 4 * j;
  }

  lemma EightWordAt(pal: seq<nat>, l: Look, gy: nat, col: nat, p: seq<nat>, j: nat, w: nat, a: nat)
    requires |pal| == 16 && LookOk(l) && gy < 16 && col < |l.row| && p == Eight(pal, l, gy, col) && j < 2
    requires w == Word8(pal, l, gy, 2 * col + j) && a == 4 * j
    ensures w == Four(p[a], p[a + 1], p[a + 2], p[a + 3])
  {
    EightWord(pal, l, gy, col, j);
  }

  lemma EightHalfAt(pal: seq<nat>, l: Look, gy: nat, col: nat, p: seq<nat>, j: nat, w: nat, a: nat)
    requires |pal| == 16 && LookOk(l) && gy < 16 && col < |l.row| && p == Eight(pal, l, gy, col) && j < 4
    requires w == Word16(pal, l, gy, 4 * col + j) && a == 2 * j
    ensures w == Two(p[a], p[a + 1])
  {
    EightHalf(pal, l, gy, col, j);
  }

  lemma EightHalf(pal: seq<nat>, l: Look, gy: nat, col: nat, j: nat)
    requires |pal| == 16 && LookOk(l) && gy < 16 && col < |l.row| && j < 4
    ensures var p := Eight(pal, l, gy, col); Word16(pal, l, gy, 4 * col + j) == Two(p[2 * j], p[2 * j + 1])
  {
    assert 2 * (4 * col + j) == 8 * col + 2 * j;
  }

  lemma MaskedBytes(p: seq<nat>, bits: byte, fg: byte, bg: byte)
    requires Chosen(p, bits, fg, bg)
    ensures Four(p[0], p[1], p[2], p[3]) == Masked(fg * 0x0101_0101, bg * 0x0101_0101, Expand4(bits / 16))
    ensures Four(p[4], p[5], p[6], p[7]) == Masked(fg * 0x0101_0101, bg * 0x0101_0101, Expand4(bits % 16))
  {
    Nibbles(bits);
    MaskedFour(fg, bg, bits / 16);
    MaskedFour(fg, bg, bits % 16);
  }

  lemma MaskedFour(fg: byte, bg: byte, n: nat)
    requires n < 16
    ensures fg * 0x0101_0101 < 0x1_0000_0000 && bg * 0x0101_0101 < 0x1_0000_0000
    ensures Masked(fg * 0x0101_0101, bg * 0x0101_0101, Expand4(n))
            == Four(Pick(n / 8 % 2 == 1, fg, bg), Pick(n / 4 % 2 == 1, fg, bg), Pick(n / 2 % 2 == 1, fg, bg), Pick(n % 2 == 1, fg, bg))
  {
    Expand4Is(n);
    Blend4(fg, bg, n / 8 % 2 == 1, n / 4 % 2 == 1, n / 2 % 2 == 1, n % 2 == 1, Expand4(n));
  }

  lemma MaskedTwo(fg: nat, bg: nat, n: nat)
    requires n < 4 && fg < 0x1_0000 && bg < 0x1_0000
    ensures fg * 0x0001_0001 < 0x1_0000_0000 && bg * 0x0001_0001 < 0x1_0000_0000
    ensures Masked(fg * 0x0001_0001, bg * 0x0001_0001, Expand2(n)) == Two(Pick(n / 2 % 2 == 1, fg, bg), Pick(n % 2 == 1, fg, bg))
  {
    Expand2Is(n);
    Blend2(fg, bg, n / 2 % 2 == 1, n % 2 == 1, Expand2(n));
  }

  lemma MaskedHalves(p: seq<nat>, bits: byte, fg: nat, bg: nat)
    requires Chosen(p, bits, fg, bg) && fg < 0x1_0000 && bg < 0x1_0000
    ensures Two(p[0], p[1]) == Masked(fg * 0x0001_0001, bg * 0x0001_0001, Expand2(bits / 64 % 4))
    ensures Two(p[2], p[3]) == Masked(fg * 0x0001_0001, bg * 0x0001_0001, Expand2(bits / 16 % 4))
    ensures Two(p[4], p[5]) == Masked(fg * 0x0001_0001, bg * 0x0001_0001, Expand2(bits / 4 % 4))
    ensures Two(p[6], p[7]) == Masked(fg * 0x0001_0001, bg * 0x0001_0001, Expand2(bits % 4))
  {
    Pairs(bits);
    MaskedTwo(fg, bg, bits / 64 % 4);
    MaskedTwo(fg, bg, bits / 16 % 4);
    MaskedTwo(fg, bg, bits / 4 % 4);
    MaskedTwo(fg, bg, bits % 4);
  }

  /** The two bits of the font that word j of a cell is drawn from. */
  function PairOf(bits: byte, j: nat): nat
    requires j < 4
  {
    if j == 0 then bits / 64 % 4 else if j == 1 then bits / 16 % 4 else if j == 2 then bits / 4 % 4 else bits % 4
  }

  /** What is written for a cell that is not blank, two-byte pixels: word j. */
  lemma Cell16(pal: seq<nat>, l: Look, gy: nat, col: nat, fg: nat, bg: nat, bits: byte, j: nat, w: nat)
    requires |pal| == 16 && LookOk(l) && gy < 16 && col < |l.row| && bits == l.font[l.row[col].ch][gy] && j < 4
    requires fg == pal[Colours(l, col).0] < 0x1_0000 && bg == pal[Colours(l, col).1] < 0x1_0000
    requires w == Word16(pal, l, gy, 4 * col + j)
    ensures w == Masked(fg * 0x0001_0001, bg * 0x0001_0001, Expand2(PairOf(bits, j)))
  {
    EightChosen(pal, l, gy, col);
    var p := Eight(pal, l, gy, col);
    EightHalfAt(pal, l, gy, col, p, j, w, 2 * j);
    MaskedHalves(p, bits, fg, bg);
  }

  /** What is written for a cell that is not blank, one-byte pixels: word j. */
  lemma Cell8(pal: seq<nat>, l: Look, gy: nat, col: nat, fg: byte, bg: byte, bits: byte, j: nat, w: nat)
    requires |pal| == 16 && LookOk(l) && gy < 16 && col < |l.row| && bits == l.font[l.row[col].ch][gy] && j < 2
    requires fg == pal[Colours(l, col).0] && bg == pal[Colours(l, col).1]
    requires w == Word8(pal, l, gy, 2 * col + j)
    ensures w == Masked(fg * 0x0101_0101, bg * 0x0101_0101, Expand4(if j == 0 then bits / 16 else bits % 16))
  {
    EightChosen(pal, l, gy, col);
    var p := Eight(pal, l, gy, col);
    EightWordAt(pal, l, gy, col, p, j, w, 4 * j);
    MaskedBytes(p, bits, fg, bg);
  }

  lemma BlankEight(p: seq<nat>, fg: nat, bg: nat)
    requires Chosen(p, 0, fg, bg)
    ensures p == [bg, bg, bg, bg, bg, bg, bg, bg]
  {
    forall x | 0 <= x < 8
      ensures !Lit(0, x)
    {
    }
  }

  /** A blank cell is all background: word j of it. */
  lemma Blank8(pal: seq<nat>, l: Look, gy: nat, col: nat, bg: byte, j: nat, w: nat)
    requires |pal| == 16 && LookOk(l) && gy < 16 && col < |l.row| && l.row[col].ch == 0 && bg == pal[Colours(l, col).1] && j < 2
    requires w == Word8(pal, l, gy, 2 * col + j)
    ensures w == bg * 0x0101_0101
  {
    EightChosen(pal, l, gy, col);
    var p := Eight(pal, l, gy, col);
    EightWordAt(pal, l, gy, col, p, j, w, 4 * j);
    BlankEight(p, pal[Colours(l, col).0], bg);
  }

  lemma Blank16(pal: seq<nat>, l: Look, gy: nat, col: nat, bg: nat, j: nat, w: nat)
    requires |pal| == 16 && LookOk(l) && gy < 16 && col < |l.row| && l.row[col].ch == 0 && bg == pal[Colours(l, col).1] && j < 4
    requires w == Word16(pal, l, gy, 4 * col + j)
    ensures w == bg * 0x0001_0001
  {
    EightChosen(pal, l, gy, col);
    var p := Eight(pal, l, gy, col);
    EightHalfAt(pal, l, gy, col, p, j, w, 2 * j);
    BlankEight(p, pal[Colours(l, col).0], bg);
  }

  // ----- The renderers -----

  /** The colour words of one-byte pixels are those of the last attribute. */
  predicate Cached8(pal: seq<nat>, last: nat, fgw: nat, bgw: nat)
    requires |pal| == 16
  {
    last == 0x100 || (last < 0x100 && fgw == pal[last / 16] * 0x0101_0101 && bgw == pal[last % 16] * 0x0101_0101)
  }

  predicate Cached16(pal: seq<nat>, last: nat, fgw: nat, bgw: nat)
    requires |pal| == 16
  {
    last == 0x100 || (last < 0x100 && fgw == pal[last / 16] * 0x0001_0001 && bgw == pal[last % 16] * 0x0001_0001)
  }

  predicate PaletteOk(pal: seq<nat>, bound: nat)
  {
    |pal| == 16 && forall i :: 0 <= i < 16 ==> pal[i] < bound
  }

  /** The attribute a cell is drawn with, and the colour words, rebuilt when it changes. */
  method Colour8(pal: seq<nat>, ghost l: Look, col: nat, attr: byte, here: bool, last: nat, fgw: word, bgw: word)
    returns (a: byte, f: word, b: word)
    requires PaletteOk(pal, 0x100) && col < |l.row| && attr == l.row[col].attr && here == (col == l.cursor)
    requires Cached8(pal, last, fgw, bgw)
    ensures Colours(l, col) == (a / 16, a % 16) && f == pal[a / 16] * 0x0101_0101 && b == pal[a % 16] * 0x0101_0101
  {
    a, f, b := attr, fgw, bgw;
    if here {
      a := (attr % 16) * 16 + attr / 16;
    }
    if a != last {
      f, b := pal[a / 16] * 0x0101_0101, pal[a % 16] * 0x0101_0101;
    }
  }

  method Colour16(pal: seq<nat>, ghost l: Look, col: nat, attr: byte, here: bool, last: nat, fgw: word, bgw: word)
    returns (a: byte, f: word, b: word)
    requires PaletteOk(pal, 0x1_0000) && col < |l.row| && attr == l.row[col].attr && here == (col == l.cursor)
    requires Cached16(pal, last, fgw, bgw)
    ensures Colours(l, col) == (a / 16, a % 16) && f == pal[a / 16] * 0x0001_0001 && b == pal[a % 16] * 0x0001_0001
  {
    a, f, b := attr, fgw, bgw;
    if here {
      a := (attr % 16) * 16 + attr / 16;
    }
    if a != last {
      f, b := pal[a / 16] * 0x0001_0001, pal[a % 16] * 0x0001_0001;
    }
  }

  /** The words of a line, as a sequence. */
  ghost predicate IsLine8(want: seq<nat>, pal: seq<nat>, l: Look, gy: nat)
  {
    |pal| == 16 && LookOk(l) && gy < 16 && |want| == 2 * |l.row|
    && forall k {:trigger Word8(pal, l, gy, k)} :: 0 <= k < |want| ==> want[k] == Word8(pal, l, gy, k)
  }

  ghost predicate IsLine16(want: seq<nat>, pal: seq<nat>, l: Look, gy: nat)
  {
    |pal| == 16 && LookOk(l) && gy < 16 && |want| == 4 * |l.row|
    && forall k {:trigger Word16(pal, l, gy, k)} :: 0 <= k < |want| ==> want[k] == Word16(pal, l, gy, k)
  }

  /** The two words of a cell on one scanline. */
  method Draw8(pal: seq<nat>, ghost l: Look, gy: nat, ghost col: nat, bits: byte, ghost a: byte, fgw: word, bgw: word, ghost want: seq<nat>)
    returns (w0: word, w1: word)
    requires PaletteOk(pal, 0x100) && IsLine8(want, pal, l, gy) && col < |l.row| && bits == l.font[l.row[col].ch][gy]
    requires Colours(l, col) == (a / 16, a % 16) && fgw == pal[a / 16] * 0x0101_0101 && bgw == pal[a % 16] * 0x0101_0101
    ensures w0 == want[2 * col] && w1 == want[2 * col + 1]
  {
    Cell8(pal, l, gy, col, pal[a / 16], pal[a % 16], bits, 0, want[2 * col]);
    Cell8(pal, l, gy, col, pal[a / 16], pal[a % 16], bits, 1, want[2 * col + 1]);
    w0, w1 := Masked(fgw, bgw, Expand4(bits / 16)), Masked(fgw, bgw, Expand4(bits % 16));
  }

  lemma DrawBlank8(pal: seq<nat>, l: Look, gy: nat, col: nat, a: byte, want: seq<nat>)
    requires PaletteOk(pal, 0x100) && IsLine8(want, pal, l, gy) && col < |l.row| && l.row[col].ch == 0 && Colours(l, col) == (a / 16, a % 16)
    ensures want[2 * col] == pal[a % 16] * 0x0101_0101 && want[2 * col + 1] == pal[a % 16] * 0x0101_0101
  {
    Blank8(pal, l, gy, col, pal[a % 16], 0, want[2 * col]);
    Blank8(pal, l, gy, col, pal[a % 16], 1, want[2 * col + 1]);
  }

  /** The loop of ubiqos_chargen_line. */
  method LineFrom(table: array2<Cell>, slot: nat, font: seq<seq<byte>>, pal: seq<nat>, cursor: int, gy: nat, dst: array<word>,
                  ghost l: Look, ghost want: seq<nat>)
    requires slot < table.Length0 && dst.Length == 2 * table.Length1 && PaletteOk(pal, 0x100)
    requires l == Look(font, RowOf(table, slot), cursor) && IsLine8(want, pal, l, gy)
    modifies dst
    ensures dst[..] == want
  {
    var last: nat, fgw: word, bgw: word := 0x100, 0, 0;
    for col := 0 to table.Length1
      invariant Cached8(pal, last, fgw, bgw)
      invariant dst[..2 * col] == want[..2 * col]
    {
      var cell := table[slot, col];
      assert cell == l.row[col];
      last, fgw, bgw := Colour8(pal, l, col, cell.attr, col == cursor, last, fgw, bgw);
      if cell.ch == 0 {
        DrawBlank8(pal, l, gy, col, last, want);
        dst[2 * col], dst[2 * col + 1] := bgw, bgw;
      } else {
        var w0, w1 := Draw8(pal, l, gy, col, font[cell.ch][gy], last, fgw, bgw, want);
        dst[2 * col], dst[2 * col + 1] := w0, w1;
      }
    }
  }

  /** The four words of a cell on one scanline of two-byte pixels. */
  method Draw16(pal: seq<nat>, ghost l: Look, gy: nat, ghost col: nat, bits: byte, ghost a: byte, fgw: word, bgw: word, ghost want: seq<nat>)
    returns (w0: word, w1: word, w2: word, w3: word)
    requires PaletteOk(pal, 0x1_0000) && IsLine16(want, pal, l, gy) && col < |l.row| && bits == l.font[l.row[col].ch][gy]
    requires Colours(l, col) == (a / 16, a % 16) && fgw == pal[a / 16] * 0x0001_0001 && bgw == pal[a % 16] * 0x0001_0001
    ensures w0 == want[4 * col] && w1 == want[4 * col + 1] && w2 == want[4 * col + 2] && w3 == want[4 * col + 3]
  {
    w0 := OneWord16(pal, l, gy, col, bits, a, fgw, bgw, want, 0, bits / 64 % 4);
    w1 := OneWord16(pal, l, gy, col, bits, a, fgw, bgw, want, 1, bits / 16 % 4);
    w2 := OneWord16(pal, l, gy, col, bits, a, fgw, bgw, want, 2, bits / 4 % 4);
    w3 := OneWord16(pal, l, gy, col, bits, a, fgw, bgw, want, 3, bits % 4);
  }

  method OneWord16(pal: seq<nat>, ghost l: Look, gy: nat, ghost col: nat, ghost bits: byte, ghost a: byte, fgw: word, bgw: word,
                   ghost want: seq<nat>, ghost j: nat, n: nat) returns (w: word)
    requires PaletteOk(pal, 0x1_0000) && IsLine16(want, pal, l, gy) && col < |l.row| && bits == l.font[l.row[col].ch][gy]
    requires Colours(l, col) == (a / 16, a % 16) && fgw == pal[a / 16] * 0x0001_0001 && bgw == pal[a % 16] * 0x0001_0001
    requires j < 4 && n == PairOf(bits, j)
    ensures w == want[4 * col + j]
  {
    Cell16(pal, l, gy, col, pal[a / 16], pal[a % 16], bits, j, want[4 * col + j]);
    w := Masked(fgw, bgw, Expand2(n));
  }

  lemma DrawBlank16(pal: seq<nat>, l: Look, gy: nat, col: nat, a: byte, want: seq<nat>)
    requires PaletteOk(pal, 0x1_0000) && IsLine16(want, pal, l, gy) && col < |l.row| && l.row[col].ch == 0 && Colours(l, col) == (a / 16, a % 16)
    ensures want[4 * col] == want[4 * col + 1] == want[4 * col + 2] == want[4 * col + 3] == pal[a % 16] * 0x0001_0001
  {
    Blank16(pal, l, gy, col, pal[a % 16], 0, want[4 * col]);
    Blank16(pal, l, gy, col, pal[a % 16], 1, want[4 * col + 1]);
    Blank16(pal, l, gy, col, pal[a % 16], 2, want[4 * col + 2]);
    Blank16(pal, l, gy, col, pal[a % 16], 3, want[4 * col + 3]);
  }

  /** The loop of ubiqos_chargen_line16. */
  method Line16From(table: array2<Cell>, slot: nat, font: seq<seq<byte>>, pal: seq<nat>, cursor: int, gy: nat, dst: array<word>,
                    ghost l: Look, ghost want: seq<nat>)
    requires slot < table.Length0 && dst.Length == 4 * table.Length1 && PaletteOk(pal, 0x1_0000)
    requires l == Look(font, RowOf(table, slot), cursor) && IsLine16(want, pal, l, gy)
    modifies dst
    ensures dst[..] == want
  {
    var last: nat, fgw: word, bgw: word := 0x100, 0, 0;
    for col := 0 to table.Length1
      invariant Cached16(pal, last, fgw, bgw)
      invariant dst[..4 * col] == want[..4 * col]
    {
      var cell := table[slot, col];
      assert cell == l.row[col];
      last, fgw, bgw := Colour16(pal, l, col, cell.attr, col == cursor, last, fgw, bgw);
      if cell.ch == 0 {
        DrawBlank16(pal, l, gy, col, last, want);
        dst[4 * col], dst[4 * col + 1], dst[4 * col + 2], dst[4 * col + 3] := bgw, bgw, bgw, bgw;
      } else {
        var w0, w1, w2, w3 := Draw16(pal, l, gy, col, font[cell.ch][gy], last, fgw, bgw, want);
        dst[4 * col], dst[4 * col + 1], dst[4 * col + 2], dst[4 * col + 3] := w0, w1, w2, w3;
      }
    }
  }

  // ----- Sixteen lines at once -----

  /** Word k of line g in a block of lines of n words. */
  function Flat(g: nat, k: nat, n: nat): nat
  {
    g * n + k
  }

  function At(s: seq<word>, g: nat, k: nat, n: nat): nat
  {
    if Flat(g, k, n) < |s| then s[Flat(g, k, n)] else 0
  }

  lemma MulMonotone(a: nat, b: nat, n: nat)
    requires a <= b
    ensures a * n <= b * n
  {
  }

  lemma FlatOne(g: nat, k: nat, h: nat, j: nat, n: nat)
    requires k < n && j < n && Flat(g, k, n) == Flat(h, j, n)
    ensures g == h && k == j
  {
    if g < h {
      MulMonotone(g + 1, h, n);
    } else if h < g {
      MulMonotone(h + 1, g, n);
    }
  }

  lemma FlatIn(g: nat, k: nat, n: nat)
    requires g < 16 && k < n
    ensures Flat(g, k, n) < 16 * n && Flat(g + 1, k, n) == Flat(g, k, n) + n
  {
    MulMonotone(g, 15, n);
  }

  /** One word stored in the block: no other line and no other column changes. */
  method Store(base: array<word>, o: nat, ghost g: nat, ghost k: nat, n: nat, v: word)
    requires base.Length == 16 * n && g < 16 && k < n && o == Flat(g, k, n)
    modifies base
    ensures forall h, j :: 0 <= h < 16 && 0 <= j < n ==>
      At(base[..], h, j, n) == if h == g && j == k then v else old(At(base[..], h, j, n))
  {
    FlatIn(g, k, n);
    ghost var was := base[..];
    base[o] := v;
    forall h, j | 0 <= h < 16 && 0 <= j < n
      ensures At(base[..], h, j, n) == if h == g && j == k then v as nat else At(was, h, j, n)
    {
      if Flat(h, j, n) == o {
        FlatOne(g, k, h, j, n);
      }
    }
  }

  /** The columns of words before `done` are drawn on every line. */
  ghost predicate Drawn(s: seq<word>, wants: seq<seq<nat>>, n: nat, done: nat)
    requires |wants| == 16 && forall g :: 0 <= g < 16 ==> |wants[g]| == n
  {
    forall g, k :: 0 <= g < 16 && 0 <= k < n && k < done ==> At(s, g, k, n) == wants[g][k]
  }

  ghost predicate IsBand8(wants: seq<seq<nat>>, pal: seq<nat>, l: Look)
  {
    LookOk(l) && |wants| == 16 && forall g :: 0 <= g < 16 ==> IsLine8(wants[g], pal, l, g)
  }

  ghost predicate IsBand16(wants: seq<seq<nat>>, pal: seq<nat>, l: Look)
  {
    LookOk(l) && |wants| == 16 && forall g :: 0 <= g < 16 ==> IsLine16(wants[g], pal, l, g)
  }

  /** The loop of ubiqos_chargen_band: cells outside, scanlines inside. */
  method BandFrom(table: array2<Cell>, slot: nat, font: seq<seq<byte>>, pal: seq<nat>, cursor: int, base: array<word>,
                  ghost l: Look, ghost wants: seq<seq<nat>>)
    requires slot < table.Length0 && base.Length == 32 * table.Length1 && PaletteOk(pal, 0x100)
    requires l == Look(font, RowOf(table, slot), cursor) && IsBand8(wants, pal, l)
    modifies base
    ensures Drawn(base[..], wants, 2 * table.Length1, 2 * table.Length1)
  {
    var last: nat, fgw: word, bgw: word := 0x100, 0, 0;
    for col := 0 to table.Length1
      invariant Cached8(pal, last, fgw, bgw)
      invariant Drawn(base[..], wants, 2 * table.Length1, 2 * col)
    {
      var cell := table[slot, col];
      assert cell == l.row[col];
      last, fgw, bgw := Colour8(pal, l, col, cell.attr, col == cursor, last, fgw, bgw);
      BandCell(font, pal, cell.ch, last, fgw, bgw, base, table.Length1, col, l, wants);
    }
  }

  /** One cell on its sixteen scanlines. */
  method BandCell(font: seq<seq<byte>>, pal: seq<nat>, ch: byte, a: byte, fgw: word, bgw: word, base: array<word>, cols: nat, col: nat,
                  ghost l: Look, ghost wants: seq<seq<nat>>)
    requires base.Length == 32 * cols && PaletteOk(pal, 0x100) && col < cols == |l.row| && font == l.font && ch == l.row[col].ch
    requires IsBand8(wants, pal, l) && LookOk(l) && Drawn(base[..], wants, 2 * cols, 2 * col)
    requires Colours(l, col) == (a / 16, a % 16) && fgw == pal[a / 16] * 0x0101_0101 && bgw == pal[a % 16] * 0x0101_0101
    modifies base
    ensures Drawn(base[..], wants, 2 * cols, 2 * col + 2)
  {
    var out := 2 * col;
    for gy := 0 to 16
      invariant out == Flat(gy, 2 * col, 2 * cols)
      invariant Drawn(base[..], wants, 2 * cols, 2 * col)
      invariant forall g, k :: 0 <= g < gy && 2 * col <= k < 2 * col + 2 ==> At(base[..], g, k, 2 * cols) == wants[g][k]
    {
      var w0, w1 := bgw, bgw;
      if ch == 0 {
        DrawBlank8(pal, l, gy, col, a, wants[gy]);
      } else {
        w0, w1 := Draw8(pal, l, gy, col, font[ch][gy], a, fgw, bgw, wants[gy]);
      }
      Store(base, out, gy, 2 * col, 2 * cols, w0);
      Store(base, out + 1, gy, 2 * col + 1, 2 * cols, w1);
      FlatIn(gy, 2 * col, 2 * cols);
      out := out + 2 * cols;
    }
  }

  /** The loop of ubiqos_chargen_band16. */
  method Band16From(table: array2<Cell>, slot: nat, font: seq<seq<byte>>, pal: seq<nat>, cursor: int, base: array<word>,
                    ghost l: Look, ghost wants: seq<seq<nat>>)
    requires slot < table.Length0 && base.Length == 64 * table.Length1 && PaletteOk(pal, 0x1_0000)
    requires l == Look(font, RowOf(table, slot), cursor) && IsBand16(wants, pal, l)
    modifies base
    ensures Drawn(base[..], wants, 4 * table.Length1, 4 * table.Length1)
  {
    var last: nat, fgw: word, bgw: word := 0x100, 0, 0;
    for col := 0 to table.Length1
      invariant Cached16(pal, last, fgw, bgw)
      invariant Drawn(base[..], wants, 4 * table.Length1, 4 * col)
    {
      var cell := table[slot, col];
      assert cell == l.row[col];
      last, fgw, bgw := Colour16(pal, l, col, cell.attr, col == cursor, last, fgw, bgw);
      Band16Cell(font, pal, cell.ch, last, fgw, bgw, base, table.Length1, col, l, wants);
    }
  }

  method Band16Cell(font: seq<seq<byte>>, pal: seq<nat>, ch: byte, a: byte, fgw: word, bgw: word, base: array<word>, cols: nat, col: nat,
                    ghost l: Look, ghost wants: seq<seq<nat>>)
    requires base.Length == 64 * cols && PaletteOk(pal, 0x1_0000) && col < cols == |l.row| && font == l.font && ch == l.row[col].ch
    requires IsBand16(wants, pal, l) && LookOk(l) && Drawn(base[..], wants, 4 * cols, 4 * col)
    requires Colours(l, col) == (a / 16, a % 16) && fgw == pal[a / 16] * 0x0001_0001 && bgw == pal[a % 16] * 0x0001_0001
    modifies base
    ensures Drawn(base[..], wants, 4 * cols, 4 * col + 4)
  {
    var out := 4 * col;
    for gy := 0 to 16
      invariant out == Flat(gy, 4 * col, 4 * cols)
      invariant Drawn(base[..], wants, 4 * cols, 4 * col)
      invariant forall g, k :: 0 <= g < gy && 4 * col <= k < 4 * col + 4 ==> At(base[..], g, k, 4 * cols) == wants[g][k]
    {
      var w0, w1, w2, w3 := bgw, bgw, bgw, bgw;
      if ch == 0 {
        DrawBlank16(pal, l, gy, col, a, wants[gy]);
      } else {
        w0, w1, w2, w3 := Draw16(pal, l, gy, col, font[ch][gy], a, fgw, bgw, wants[gy]);
      }
      Store(base, out, gy, 4 * col, 4 * cols, w0);
      Store(base, out + 1, gy, 4 * col + 1, 4 * cols, w1);
      Store(base, out + 2, gy, 4 * col + 2, 4 * cols, w2);
      Store(base, out + 3, gy, 4 * col + 3, 4 * cols, w3);
      FlatIn(gy, 4 * col, 4 * cols);
      out := out + 4 * cols;
    }
  }

  // ----- The renderers, on what the view shows -----

  function LineWords8(pal: seq<nat>, l: Look, gy: nat): (w: seq<nat>)
    requires |pal| == 16 && LookOk(l) && gy < 16
    ensures |w| == 2 * |l.row| && IsLine8(w, pal, l, gy)
  {
    seq<nat>(2 * |l.row|, k requires 0 <= k < 2 * |l.row| => Word8(pal, l, gy, k))
  }

  function LineWords16(pal: seq<nat>, l: Look, gy: nat): (w: seq<nat>)
    requires |pal| == 16 && LookOk(l) && gy < 16
    ensures |w| == 4 * |l.row| && IsLine16(w, pal, l, gy)
  {
    seq<nat>(4 * |l.row|, k requires 0 <= k < 4 * |l.row| => Word16(pal, l, gy, k))
  }

  class Renderer {
    const gen: Generator
    const font: seq<seq<byte>>
    const pal: seq<nat>
    const pal16: seq<nat>
    var curRow: nat
    var curCol: nat
    var curOn: bool

    constructor (gen: Generator, font: seq<seq<byte>>, pal: seq<nat>, pal16: seq<nat>)
      ensures this.gen == gen && this.font == font && this.pal == pal && this.pal16 == pal16 && !curOn
    {
      this.gen, this.font, this.pal, this.pal16 := gen, font, pal, pal16;
      curRow, curCol, curOn := 0, 0, false;
    }

    /** ubiqos_chargen_cursor */
    method Cursor(row: nat, col: nat, on: bool)
      modifies this
      ensures curRow == row && curCol == col && curOn == on
    {
      curRow, curCol, curOn := row, col, on;
    }

    /** What a row of the view is drawn from; the cursor shows on the live screen only. */
    ghost function LookAt(crow: nat): Look
      requires gen.Valid() && crow < gen.rows
      reads this, gen, gen.Tables()
    {
      Look(font, gen.View()[crow], CursorOn(crow))
    }

    function CursorOn(crow: nat): int
      reads this, gen
    {
      if curOn && gen.viewBack == 0 && crow == curRow then curCol else -1
    }

    ghost predicate Ready(crow: nat)
      reads this, gen, gen.Tables()
    {
      gen.Valid() && crow < gen.rows && LookOk(LookAt(crow)) && PaletteOk(pal, 0x100) && PaletteOk(pal16, 0x1_0000)
    }

    /** ubiqos_chargen_line */
    method Line(y: nat, dst: array<word>)
      requires Ready(y / 16) && dst.Length == 2 * gen.cols
      modifies dst
      ensures Ready(y / 16) && dst[..] == LineWords8(pal, LookAt(y / 16), y % 16)
    {
      var crow, gy := y / 16, y % 16;
      var table, slot := gen.ViewAt(crow);
      ghost var l := LookAt(crow);
      LineFrom(table, slot, font, pal, CursorOn(crow), gy, dst, l, LineWords8(pal, l, gy));
      assert LookAt(crow) == l;
    }

    /** ubiqos_chargen_line16 */
    method Line16(y: nat, dst: array<word>)
      requires Ready(y / 16) && dst.Length == 4 * gen.cols
      modifies dst
      ensures Ready(y / 16) && dst[..] == LineWords16(pal16, LookAt(y / 16), y % 16)
    {
      var crow, gy := y / 16, y % 16;
      var table, slot := gen.ViewAt(crow);
      ghost var l := LookAt(crow);
      Line16From(table, slot, font, pal16, CursorOn(crow), gy, dst, l, LineWords16(pal16, l, gy));
      assert LookAt(crow) == l;
    }

    /** ubiqos_chargen_band: line g of the block is what ubiqos_chargen_line draws for it. */
    method Band(y0: nat, base: array<word>)
      requires Ready(y0 / 16) && base.Length == 32 * gen.cols
      modifies base
      ensures Ready(y0 / 16) && Drawn(base[..], Lines8(pal, LookAt(y0 / 16)), 2 * gen.cols, 2 * gen.cols)
    {
      var table, slot := gen.ViewAt(y0 / 16);
      ghost var l := LookAt(y0 / 16);
      BandFrom(table, slot, font, pal, CursorOn(y0 / 16), base, l, Lines8(pal, l));
      assert LookAt(y0 / 16) == l;
    }

    /** ubiqos_chargen_band16 */
    method Band16(y0: nat, base: array<word>)
      requires Ready(y0 / 16) && base.Length == 64 * gen.cols
      modifies base
      ensures Ready(y0 / 16) && Drawn(base[..], Lines16(pal16, LookAt(y0 / 16)), 4 * gen.cols, 4 * gen.cols)
    {
      var table, slot := gen.ViewAt(y0 / 16);
      ghost var l := LookAt(y0 / 16);
      Band16From(table, slot, font, pal16, CursorOn(y0 / 16), base, l, Lines16(pal16, l));
      assert LookAt(y0 / 16) == l;
    }
  }

  function Lines8(pal: seq<nat>, l: Look): (w: seq<seq<nat>>)
    requires |pal| == 16 && LookOk(l)
    ensures IsBand8(w, pal, l) && forall g :: 0 <= g < 16 ==> w[g] == LineWords8(pal, l, g)
  {
    seq(16, g requires 0 <= g < 16 => LineWords8(pal, l, g))
  }

  function Lines16(pal: seq<nat>, l: Look): (w: seq<seq<nat>>)
    requires |pal| == 16 && LookOk(l)
    ensures IsBand16(w, pal, l) && forall g :: 0 <= g < 16 ==> w[g] == LineWords16(pal, l, g)
  {
    seq(16, g requires 0 <= g < 16 => LineWords16(pal, l, g))
  }
}
