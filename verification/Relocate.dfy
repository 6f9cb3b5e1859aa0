/** Relocation: the fields a module's addresses lie in, the table that names them, and why
    relocating a second time, for another address, is as good as the first. */
module Relocate {
  import opened Bits
  import opened Words

  // ----- One field -----

  /** What `relocate` stores in a word of one kind; a word of another kind is left alone. */
  function Fixed(kind: nat, was: word, v: word): word
  {
    if kind == 0 then v
    else if kind == 1 then OrWord(AndWord(was, 0x0000_0FFF), AndWord(U32(v + 0x800), 0xFFFF_F000))
    else if kind == 2 then OrWord(AndWord(was, 0x000F_FFFF), (v % 0x1000) * 0x10_0000)
    else if kind == 3 then
      var lo := v % 0x1000;
      OrWord(OrWord(AndWord(was, NotWord(0xFE00_0F80)), (lo / 0x20) * 0x200_0000), (lo % 0x20) * 0x80)
    else was
  }

  /** Is bit j of the word part of the field? */
  predicate InField(kind: nat, j: nat)
  {
    if kind == 0 then true
    else if kind == 1 then j >= 12
    else if kind == 2 then j >= 20
    else kind == 3 && (7 <= j < 12 || j >= 25)
  }

  /** The bit that the field gets there, whatever the word held. */
  function FieldBit(kind: nat, v: word, j: nat): bool
    requires InField(kind, j)
  {
    if kind == 0 then Bit(v, j)
    else if kind == 1 then Bit(U32(v + 0x800), j)
    else if kind == 2 then Bit(v, j - 20)
    else if j < 12 then Bit(v, j - 7) else Bit(v, j - 20)
  }

  lemma Width(k: nat) returns (n: nat, p: nat)
    requires k == 5 || k == 7 || k == 12 || k == 20 || k == 25 || k == 32
    ensures n == k && p == Pow2(n)
    ensures p == if k == 5 then 0x20 else if k == 7 then 0x80 else if k == 12 then 0x1000
                 else if k == 20 then 0x10_0000 else if k == 25 then 0x200_0000 else 0x1_0000_0000
  {
    Pow2Values();
    Pow2Add(20, 5);
    Pow2Add(5, 2);
    n, p := k, Pow2(k);
  }

  /** A fixed word has the field's bits where the field is and its old bits elsewhere. */
  lemma {:induction false} FixedBits(kind: nat, was: word, v: word, j: nat)
    requires j < 32
    ensures Bit(Fixed(kind, was, v), j) == if InField(kind, j) then FieldBit(kind, v, j) else Bit(was, j)
  {
    if kind == 1 {
      FixedHigh(was, v, j);
    } else if kind == 2 {
      FixedLowI(was, v, j);
    } else if kind == 3 {
      FixedLowS(was, v, j);
    }
  }

  lemma {:induction false} FixedHigh(was: word, v: word, j: nat)
    requires j < 32
    ensures Bit(Fixed(1, was, v), j) == if j >= 12 then Bit(U32(v + 0x800), j) else Bit(was, j)
  {
    BitOr(AndWord(was, 0x0000_0FFF), AndWord(U32(v + 0x800), 0xFFFF_F000), j);
    BitAnd(was, 0x0000_0FFF, j);
    BitAnd(U32(v + 0x800), 0xFFFF_F000, j);
    var n, p := Width(12);
    var m, q := Width(20);
    BitOnes(n, j);
    BitSplit(n, q - 1, 0, 0xFFFF_F000, j);
    BitOfZero(j);
    if j >= 12 {
      BitOnes(m, j - 12);
    }
  }

  lemma {:induction false} FixedLowI(was: word, v: word, j: nat)
    requires j < 32
    ensures Bit(Fixed(2, was, v), j) == if j >= 20 then Bit(v, j - 20) else Bit(was, j)
  {
    var n, p := Width(20);
    var m, q := Width(12);
    var lo := v % 0x1000;
    BitOr(AndWord(was, 0x000F_FFFF), lo * 0x10_0000, j);
    BitAnd(was, 0x000F_FFFF, j);
    BitOnes(n, j);
    BitSplit(n, lo, 0, lo * 0x10_0000, j);
    BitOfZero(j);
    if j >= 20 {
      BitSplit(m, v / 0x1000, lo, v, j - 20);
    }
  }

  lemma {:induction false} FixedLowS(was: word, v: word, j: nat)
    requires j < 32
    ensures Bit(Fixed(3, was, v), j) == if j >= 25 then Bit(v, j - 20) else if 7 <= j < 12 then Bit(v, j - 7) else Bit(was, j)
  {
    var lo := v % 0x1000;
    var kept, high, low := AndWord(was, NotWord(0xFE00_0F80)), (lo / 0x20) * 0x200_0000, (lo % 0x20) * 0x80;
    BitOr(OrWord(kept, high), low, j);
    BitOr(kept, high, j);
    BitAnd(was, NotWord(0xFE00_0F80), j);
    KeptMask(j);
    HighPart(lo / 0x20, j);
    LowPart(lo % 0x20, j);
    LoBits(v, j);
  }

  lemma {:induction false} KeptMask(j: nat)
    requires j < 32
    ensures Bit(NotWord(0xFE00_0F80), j) == (j < 7 || 12 <= j < 25)
  {
    var n, p := Width(7);
    var m, q := Width(5);
    var k, r := Width(12);
    // 0x01FF_F07F is thirteen ones above twelve bits that hold seven ones
    BitSplit(k, 0x1FFF, 0x7F, 0x1FF_F07F, j);
    BitOnes(n, j);
    if j >= 12 {
      Thirteen(j - 12);
    }
  }

  lemma {:induction false} Thirteen(j: nat)
    ensures Bit(0x1FFF, j) == (j < 13)
  {
    var k, r := Width(12);
    assert Pow2(k + 1) == 0x2000;
    BitOnes(k + 1, j);
  }

  lemma {:induction false} HighPart(h: nat, j: nat)
    requires h < 0x80 && j < 32
    ensures Bit(h * 0x200_0000, j) == (j >= 25 && Bit(h, j - 25))
  {
    var n, p := Width(25);
    BitSplit(n, h, 0, h * 0x200_0000, j);
    BitOfZero(j);
  }

  lemma {:induction false} LowPart(l: nat, j: nat)
    requires l < 0x20 && j < 32
    ensures Bit(l * 0x80, j) == (7 <= j < 12 && Bit(l, j - 7))
  {
    var n, p := Width(7);
    var m, q := Width(5);
    BitSplit(n, l, 0, l * 0x80, j);
    BitOfZero(j);
    if j >= 12 {
      BitSplit(m, 0, l, l, j - 7);
      BitOfZero(j - 12);
    }
  }

  /** The low five and the next seven of the twelve bits. */
  lemma LoBits(v: word, j: nat)
    requires j < 32
    ensures j >= 25 ==> Bit(v % 0x1000 / 0x20, j - 25) == Bit(v, j - 20)
    ensures 7 <= j < 12 ==> Bit(v % 0x1000 % 0x20, j - 7) == Bit(v, j - 7)
  {
    var k, r := Width(12);
    var m, q := Width(5);
    var lo := v % 0x1000;
    if j >= 25 {
      BitSplit(k, v / 0x1000, lo, v, j - 20);
      BitSplit(m, lo / 0x20, lo % 0x20, lo, j - 20);
    } else if 7 <= j < 12 {
      BitSplit(k, v / 0x1000, lo, v, j - 7);
      BitSplit(m, lo / 0x20, lo % 0x20, lo, j - 7);
    }
  }

  // ----- What the processor makes of the fields -----

  /** The value of an upper-immediate instruction. */
  function Upper(w: word): nat
  {
    w / 0x1000 * 0x1000
  }

  function Signed12(n: nat): int
    requires n < 0x1000
  {
    if n < 0x800 then n else n - 0x1000
  }

  /** The immediates of the two forms that use the low half. */
  function ImmI(w: word): int
  {
    Signed12(w / 0x10_0000)
  }

  function ImmS(w: word): int
  {
    Signed12(w / 0x200_0000 * 0x20 + w / 0x80 % 0x20)
  }

  /** The bits of the quotient and of the remainder by p = 2^n. */
  lemma BitsOf(n: nat, p: nat, x: nat, q: nat, r: nat, j: nat)
    requires p == Pow2(n) && r < p && x == q * p + r
    ensures Bit(q, j) == Bit(x, j + n) && (j < n ==> Bit(r, j) == Bit(x, j))
  {
    BitSplit(n, q, r, x, j + n);
    BitSplit(n, q, r, x, j);
  }

  lemma UpperOfFixed(was: word, v: word)
    ensures Upper(Fixed(1, was, v)) == U32(v + 0x800) / 0x1000 * 0x1000
  {
    var n, p := Width(12);
    var m, q := Width(20);
    var f, u := Fixed(1, was, v), U32(v + 0x800);
    forall j | 0 <= j < m
      ensures Bit(f / 0x1000, j) == Bit(u / 0x1000, j)
    {
      FixedBits(1, was, v, j + 12);
      HighBits(f, u, j);
    }
    SameBits(m, f / 0x1000, u / 0x1000);
  }

  lemma {:induction false} HighBits(f: word, u: word, j: nat)
    requires j < 20 && Bit(f, j + 12) == Bit(u, j + 12)
    ensures Bit(f / 0x1000, j) == Bit(u / 0x1000, j)
  {
    var n, p := Width(12);
    BitsOf(n, p, f, f / 0x1000, f % 0x1000, j);
    BitsOf(n, p, u, u / 0x1000, u % 0x1000, j);
  }

  lemma ImmIOfFixed(was: word, v: word)
    ensures ImmI(Fixed(2, was, v)) == Signed12(v % 0x1000)
  {
    var n, p := Width(20);
    var m, q := Width(12);
    forall j | 0 <= j < m
      ensures Bit(Fixed(2, was, v) / 0x10_0000, j) == Bit(v % 0x1000, j)
    {
      BitsOf(n, p, Fixed(2, was, v), Fixed(2, was, v) / 0x10_0000, Fixed(2, was, v) % 0x10_0000, j);
      BitsOf(m, q, v, v / 0x1000, v % 0x1000, j);
      FixedBits(2, was, v, j + 20);
    }
    SameBits(m, Fixed(2, was, v) / 0x10_0000, v % 0x1000);
  }

  lemma ImmSOfFixed(was: word, v: word)
    ensures ImmS(Fixed(3, was, v)) == Signed12(v % 0x1000)
  {
    var w, lo := Fixed(3, was, v), v % 0x1000;
    HighOfFixed(was, v);
    LowOfFixed(was, v);
    assert lo == lo / 0x20 * 0x20 + lo % 0x20;
  }

  lemma HighOfFixed(was: word, v: word)
    ensures Fixed(3, was, v) / 0x200_0000 == v % 0x1000 / 0x20
  {
    var n, p := Width(25);
    var k, r := Width(7);
    forall j | 0 <= j < k
      ensures Bit(Fixed(3, was, v) / 0x200_0000, j) == Bit(v % 0x1000 / 0x20, j)
    {
      BitsOf(n, p, Fixed(3, was, v), Fixed(3, was, v) / 0x200_0000, Fixed(3, was, v) % 0x200_0000, j);
      FixedBits(3, was, v, j + 25);
      LoBits(v, j + 25);
    }
    SameBits(k, Fixed(3, was, v) / 0x200_0000, v % 0x1000 / 0x20);
  }

  lemma LowOfFixed(was: word, v: word)
    ensures Fixed(3, was, v) / 0x80 % 0x20 == v % 0x1000 % 0x20
  {
    var k, r := Width(7);
    var m, q := Width(5);
    forall j | 0 <= j < m
      ensures Bit(Fixed(3, was, v) / 0x80 % 0x20, j) == Bit(v % 0x1000 % 0x20, j)
    {
      BitsOf(m, q, Fixed(3, was, v) / 0x80, Fixed(3, was, v) / 0x80 / 0x20, Fixed(3, was, v) / 0x80 % 0x20, j);
      BitsOf(k, r, Fixed(3, was, v), Fixed(3, was, v) / 0x80, Fixed(3, was, v) % 0x80, j);
      FixedBits(3, was, v, j + 7);
      LoBits(v, j + 7);
    }
    SameBits(m, Fixed(3, was, v) / 0x80 % 0x20, v % 0x1000 % 0x20);
  }

  /** A word that already has the part of the address that its kind takes. */
  predicate HasAddress(kind: nat, w: word, v: word)
  {
    if kind == 0 then w == v
    else if kind == 1 then Upper(w) == U32(v + 0x800) / 0x1000 * 0x1000
    else if kind == 2 then ImmI(w) == Signed12(v % 0x1000)
    else if kind == 3 then ImmS(w) == Signed12(v % 0x1000)
    else true
  }

  /** A word is left as it is exactly when it holds its address. */
  lemma HeldIs(kind: nat, w: word, v: word)
    ensures Fixed(kind, w, v) == w <==> HasAddress(kind, w, v)
  {
    if kind == 1 {
      HeldUpper(w, v);
    } else if kind == 2 {
      HeldImmI(w, v);
    } else if kind == 3 {
      HeldImmS(w, v);
    }
  }

  lemma HeldUpper(w: word, v: word)
    ensures Fixed(1, w, v) == w <==> Upper(w) == U32(v + 0x800) / 0x1000 * 0x1000
  {
    UpperOfFixed(w, v);
    if Upper(w) == Upper(Fixed(1, w, v)) {
      UpperKept(w, v, Fixed(1, w, v));
    }
  }

  lemma HeldImmI(w: word, v: word)
    ensures Fixed(2, w, v) == w <==> ImmI(w) == Signed12(v % 0x1000)
  {
    ImmIOfFixed(w, v);
    if ImmI(w) == ImmI(Fixed(2, w, v)) {
      ImmIKept(w, v, Fixed(2, w, v));
    }
  }

  lemma HeldImmS(w: word, v: word)
    ensures Fixed(3, w, v) == w <==> ImmS(w) == Signed12(v % 0x1000)
  {
    var f := Fixed(3, w, v);
    ImmSOfFixed(w, v);
    if ImmS(w) == ImmS(f) {
      SameImmS(w, f);
      ImmSKept(w, v, f);
    }
  }

  lemma SameImmS(w: word, f: word)
    requires ImmS(f) == ImmS(w)
    ensures f / 0x200_0000 == w / 0x200_0000 && f / 0x80 % 0x20 == w / 0x80 % 0x20
  {
    SameParts(f / 0x200_0000, f / 0x80 % 0x20, w / 0x200_0000, w / 0x80 % 0x20);
  }

  lemma SameParts(a: nat, b: nat, c: nat, d: nat)
    requires a < 0x80 && c < 0x80 && b < 0x20 && d < 0x20 && Signed12(a * 0x20 + b) == Signed12(c * 0x20 + d)
    ensures a == c && b == d
  {
  }

  lemma UpperKept(w: word, v: word, f: word)
    requires f == Fixed(1, w, v) && f / 0x1000 * 0x1000 == w / 0x1000 * 0x1000
    ensures f == w
  {
    var k, p := Width(32);
    forall j | 0 <= j < k
      ensures Bit(f, j) == Bit(w, j)
    {
      if j >= 12 {
        UpperHigh(w, f, j);
      } else {
        FixedBits(1, w, v, j);
      }
    }
    SameBits(k, f, w);
  }

  lemma {:induction false} UpperHigh(w: word, f: word, j: nat)
    requires f / 0x1000 * 0x1000 == w / 0x1000 * 0x1000 && 12 <= j < 32
    ensures Bit(f, j) == Bit(w, j)
  {
    var n, p := Width(12);
    assert f / 0x1000 == w / 0x1000;
    BitsOf(n, p, f, f / 0x1000, f % 0x1000, j - n);
    BitsOf(n, p, w, w / 0x1000, w % 0x1000, j - n);
  }

  lemma ImmIKept(w: word, v: word, f: word)
    requires f == Fixed(2, w, v) && f / 0x10_0000 == w / 0x10_0000
    ensures f == w
  {
    var k, p := Width(32);
    forall j | 0 <= j < k
      ensures Bit(f, j) == Bit(w, j)
    {
      if j >= 20 {
        ImmIHigh(w, f, j);
      } else {
        FixedBits(2, w, v, j);
      }
    }
    SameBits(k, f, w);
  }

  lemma {:induction false} ImmIHigh(w: word, f: word, j: nat)
    requires f / 0x10_0000 == w / 0x10_0000 && 20 <= j < 32
    ensures Bit(f, j) == Bit(w, j)
  {
    var n, p := Width(20);
    BitsOf(n, p, f, f / 0x10_0000, f % 0x10_0000, j - n);
    BitsOf(n, p, w, w / 0x10_0000, w % 0x10_0000, j - n);
  }

  lemma ImmSKept(w: word, v: word, f: word)
    requires f == Fixed(3, w, v) && f / 0x200_0000 == w / 0x200_0000 && f / 0x80 % 0x20 == w / 0x80 % 0x20
    ensures f == w
  {
    var k, q := Width(32);
    forall j | 0 <= j < k
      ensures Bit(f, j) == Bit(w, j)
    {
      if j >= 25 {
        StoreHigh(w, f, j);
      } else if 7 <= j < 12 {
        StoreLow(w, f, j);
      } else {
        FixedBits(3, w, v, j);
      }
    }
    SameBits(k, f, w);
  }

  lemma {:induction false} StoreHigh(w: word, f: word, j: nat)
    requires f / 0x200_0000 == w / 0x200_0000 && 25 <= j < 32
    ensures Bit(f, j) == Bit(w, j)
  {
    var n, p := Width(25);
    BitsOf(n, p, f, f / 0x200_0000, f % 0x200_0000, j - n);
    BitsOf(n, p, w, w / 0x200_0000, w % 0x200_0000, j - n);
  }

  lemma {:induction false} StoreLow(w: word, f: word, j: nat)
    requires f / 0x80 % 0x20 == w / 0x80 % 0x20 && 7 <= j < 12
    ensures Bit(f, j) == Bit(w, j)
  {
    var n, p := Width(7);
    var m, q := Width(5);
    BitsOf(n, p, f, f / 0x80, f % 0x80, j - n);
    BitsOf(n, p, w, w / 0x80, w % 0x80, j - n);
    BitsOf(m, q, f / 0x80, f / 0x80 / 0x20, f / 0x80 % 0x20, j - n);
    BitsOf(m, q, w / 0x80, w / 0x80 / 0x20, w / 0x80 % 0x20, j - n);
  }

  /** The two halves of a pair, whatever instructions they are in, make the address again:
      the carry that the sign of the low half takes away is added to the high half. */
  lemma PairMakesAddress(high: word, low: word, store: word, v: word)
    ensures (Upper(Fixed(1, high, v)) + ImmI(Fixed(2, low, v))) % 0x1_0000_0000 == v
    ensures (Upper(Fixed(1, high, v)) + ImmS(Fixed(3, store, v))) % 0x1_0000_0000 == v
  {
    UpperOfFixed(high, v);
    ImmIOfFixed(low, v);
    ImmSOfFixed(store, v);
    CarryCancels(v);
  }

  lemma CarryCancels(v: word)
    ensures (U32(v + 0x800) / 0x1000 * 0x1000 + Signed12(v % 0x1000)) % 0x1_0000_0000 == v
  {
    var q, r := v / 0x1000, v % 0x1000;
    if r < 0x800 {
      assert (v + 0x800) / 0x1000 == q;
    } else if q < 0xF_FFFF {
      assert (v + 0x800) / 0x1000 == q + 1;
    } else {
      assert v + 0x800 - 0x1_0000_0000 < 0x1000;
    }
  }

  // ----- A whole table -----

  datatype Entry = Entry(site: nat, kind: nat, target: word)

  /** Where the writable tail of a split module starts, and where it is put. */
  datatype Split = Whole | Tail(offset: word, address: word)

  function Address(e: Entry, base: nat, split: Split): word
  {
    if split.Tail? && e.target >= split.offset then U32(split.address + e.target - split.offset) else U32(base + e.target)
  }

  predicate Fits(es: seq<Entry>, size: nat)
  {
    forall i :: 0 <= i < |es| ==> es[i].site + 4 <= size
  }

  function Step(m: seq<byte>, e: Entry, base: nat, split: Split): (n: seq<byte>)
    requires e.site + 4 <= |m|
    ensures |n| == |m|
  {
    Put32(m, e.site, Fixed(e.kind, Load32(m, e.site), Address(e, base, split)))
  }

  /** The image after every entry, in order. */
  function Relocated(m: seq<byte>, es: seq<Entry>, base: nat, split: Split): (n: seq<byte>)
    requires Fits(es, |m|)
    ensures |n| == |m|
    decreases |es|
  {
    if es == [] then m else Relocated(Step(m, es[0], base, split), es[1..], base, split)
  }

  /** Does some entry's field cover this bit of the image? */
  predicate Covers(e: Entry, n: nat)
  {
    8 * e.site <= n < 8 * e.site + 32 && InField(e.kind, n - 8 * e.site)
  }

  ghost predicate Covered(es: seq<Entry>, n: nat)
  {
    exists i :: 0 <= i < |es| && Covers(es[i], n)
  }

  /** One entry sets the bits of its field, to values that do not depend on the image. */
  lemma StepBit(m: seq<byte>, e: Entry, base: nat, split: Split, n: nat)
    requires e.site + 4 <= |m| && n < 8 * |m|
    ensures ImageBit(Step(m, e, base, split), n)
            == if Covers(e, n) then FieldBit(e.kind, Address(e, base, split), n - 8 * e.site) else ImageBit(m, n)
  {
    var v := Fixed(e.kind, Load32(m, e.site), Address(e, base, split));
    BitPut(m, e.site, v, n);
    if 8 * e.site <= n < 8 * e.site + 32 {
      FixedBits(e.kind, Load32(m, e.site), Address(e, base, split), n - 8 * e.site);
      BitLoad(m, e.site, n - 8 * e.site);
    }
  }

  /** A table changes nothing outside the fields it names. */
  lemma {:induction false} Untouched(m: seq<byte>, es: seq<Entry>, base: nat, split: Split, n: nat)
    requires Fits(es, |m|) && n < 8 * |m| && !Covered(es, n)
    ensures ImageBit(Relocated(m, es, base, split), n) == ImageBit(m, n)
    decreases |es|
  {
    if es != [] {
      assert !Covers(es[0], n);
      StepBit(m, es[0], base, split, n);
      assert forall i :: 0 <= i < |es[1..]| ==> es[1..][i] == es[i + 1];
      Untouched(Step(m, es[0], base, split), es[1..], base, split, n);
    }
  }

  /** Two images that differ only in the fields of a table are the same once relocated. */
  lemma {:induction false} SameRelocated(a: seq<byte>, b: seq<byte>, es: seq<Entry>, base: nat, split: Split)
    requires |a| == |b| && Fits(es, |a|)
    requires forall n :: 0 <= n < 8 * |a| ==> ImageBit(a, n) == ImageBit(b, n) || Covered(es, n)
    ensures Relocated(a, es, base, split) == Relocated(b, es, base, split)
    decreases |es|
  {
    if es == [] {
      SameImage(a, b);
    } else {
      var x, y := Step(a, es[0], base, split), Step(b, es[0], base, split);
      forall n | 0 <= n < 8 * |a|
        ensures ImageBit(x, n) == ImageBit(y, n) || Covered(es[1..], n)
      {
        StepBit(a, es[0], base, split, n);
        StepBit(b, es[0], base, split, n);
        if !Covers(es[0], n) && Covered(es, n) {
          var i :| 0 <= i < |es| && Covers(es[i], n);
          assert es[1..][i - 1] == es[i];
        }
      }
      SameRelocated(x, y, es[1..], base, split);
    }
  }

  /** Relocating for one address and then for another is relocating the original for the
      second, for every table, even one whose fields overlap. */
  lemma {:induction false} RelocateAgain(m: seq<byte>, es: seq<Entry>, base: nat, split: Split, base': nat, split': Split)
    requires Fits(es, |m|)
    ensures Relocated(Relocated(m, es, base, split), es, base', split') == Relocated(m, es, base', split')
  {
    var a := Relocated(m, es, base, split);
    forall n | 0 <= n < 8 * |m|
      ensures ImageBit(a, n) == ImageBit(m, n) || Covered(es, n)
    {
      if !Covered(es, n) {
        Untouched(m, es, base, split, n);
      }
    }
    SameRelocated(a, m, es, base', split');
  }

  /** Bytes before `from` and from `to` on are as they were, when every site lies between. */
  lemma {:induction false} OutsideKept(m: seq<byte>, es: seq<Entry>, base: nat, split: Split, from: nat, to: nat)
    requires from <= to <= |m| && Fits(es, to) && Fits(es, |m|) && forall i :: 0 <= i < |es| ==> from <= es[i].site
    ensures Relocated(m, es, base, split)[..from] == m[..from] && Relocated(m, es, base, split)[to..] == m[to..]
    decreases |es|
  {
    if es != [] {
      OutsideKept(Step(m, es[0], base, split), es[1..], base, split, from, to);
    }
  }

  // ----- The table in the image -----

  function EntryAt(m: seq<byte>, at: nat): Entry
    requires at + 8 <= |m|
  {
    Entry(Load32(m, at) % 0x1000_0000, Load32(m, at) / 0x1000_0000, Load32(m, at + 4))
  }

  function Entries(m: seq<byte>, at: nat, count: nat): (es: seq<Entry>)
    requires at + 8 * count <= |m|
    ensures |es| == count
  {
    seq(count, i requires 0 <= i < count => EntryAt(m, at + 8 * i))
  }

  /** Every site lies after the header and before the table. */
  predicate SitesOk(m: seq<byte>, at: nat, count: nat)
  {
    && 56 <= at && at + 8 * count <= |m|
    && forall i :: 0 <= i < count ==> 56 <= Entries(m, at, count)[i].site && Entries(m, at, count)[i].site + 4 <= at
  }

  /** Relocating keeps the header and the table, so that the table can be used again. */
  lemma {:induction false} TableKept(m: seq<byte>, at: nat, count: nat, base: nat, split: Split)
    requires SitesOk(m, at, count)
    ensures var n := Relocated(m, Entries(m, at, count), base, split);
      n[..56] == m[..56] && n[at..] == m[at..] && Entries(n, at, count) == Entries(m, at, count)
  {
    var n := Relocated(m, Entries(m, at, count), base, split);
    OutsideKept(m, Entries(m, at, count), base, split, 56, at);
    SameTable(m, n, at, count);
  }

  lemma SameTable(m: seq<byte>, n: seq<byte>, at: nat, count: nat)
    requires at + 8 * count <= |m| == |n| && n[at..] == m[at..]
    ensures Entries(n, at, count) == Entries(m, at, count)
  {
    forall i | 0 <= i < count
      ensures EntryAt(n, at + 8 * i) == EntryAt(m, at + 8 * i)
    {
      assert forall j :: at <= j < |m| ==> n[j] == n[at..][j - at] && m[j] == m[at..][j - at];
    }
  }

  /** relocate: the image patched in place, the table read from it as it goes. */
  method RelocateInPlace(image: array<byte>, at: nat, count: nat, base: nat, split: Split)
    requires SitesOk(image[..], at, count)
    modifies image
    ensures image[..] == Relocated(old(image[..]), Entries(old(image[..]), at, count), base, split)
  {
    ghost var m := image[..];
    ghost var es := Entries(m, at, count);
    ghost var want := Relocated(m, es, base, split);
    assert es[0..] == es;
    for i := 0 to count
      invariant image[at..] == m[at..]
      invariant Fits(es[i..], image.Length) && Relocated(image[..], es[i..], base, split) == want
    {
      ghost var now := image[..];
      EntryIs(m, now, at, count, i, es[i]);
      StepInPlace(image, at + 8 * i, at, base, split, now, es[i]);
      OneEntry(now, es, i, base, split);
      StepTail(now, es[i], base, split, at);
    }
  }

  lemma StepTail(m: seq<byte>, e: Entry, base: nat, split: Split, at: nat)
    requires e.site + 4 <= at <= |m|
    ensures Step(m, e, base, split)[at..] == m[at..]
  {
  }

  lemma EntryIs(m: seq<byte>, n: seq<byte>, at: nat, count: nat, i: nat, e: Entry)
    requires SitesOk(m, at, count) && |n| == |m| && n[at..] == m[at..] && i < count && e == Entries(m, at, count)[i]
    ensures EntryAt(n, at + 8 * i) == e && e.site + 4 <= at
  {
    SameTable(m, n, at, count);
    assert Entries(n, at, count)[i] == e;
  }

  lemma {:induction false} OneEntry(m: seq<byte>, es: seq<Entry>, i: nat, base: nat, split: Split)
    requires i < |es| && Fits(es[i..], |m|)
    ensures Fits(es[i + 1..], |m|) && es[i].site + 4 <= |m|
    ensures Relocated(Step(m, es[i], base, split), es[i + 1..], base, split) == Relocated(m, es[i..], base, split)
  {
    assert es[i] == es[i..][0] && es[i..][1..] == es[i + 1..];
    var rest, all := es[i + 1..], es[i..];
    assert forall k :: 0 <= k < |rest| ==> rest[k] == all[k + 1];
  }

  /** One turn of its loop. */
  method StepInPlace(image: array<byte>, from: nat, at: nat, base: nat, split: Split, ghost was: seq<byte>, ghost e: Entry)
    requires at <= from && from + 8 <= image.Length && image[..] == was && EntryAt(was, from) == e && e.site + 4 <= at
    modifies image
    ensures image[..] == Step(was, e, base, split)
  {
    var w0 := LoadAt(image, from);
    var target := LoadAt(image, from + 4);
    var site := w0 % 0x1000_0000;
    var word0 := LoadAt(image, site);
    StoreAt(image, site, Fixed(w0 / 0x1000_0000, word0, Address(Entry(site, w0 / 0x1000_0000, target), base, split)));
  }

  method LoadAt(image: array<byte>, i: nat) returns (w: word)
    requires i + 4 <= image.Length
    ensures w == Load32(image[..], i)
  {
    w := LoadWord(image[..], i);
  }

  method StoreAt(image: array<byte>, i: nat, v: word)
    requires i + 4 <= image.Length
    modifies image
    ensures image[..] == Put32(old(image[..]), i, v)
  {
    image[i], image[i + 1], image[i + 2], image[i + 3] := v % 256, v / 0x100 % 256, v / 0x1_0000 % 256, v / 0x100_0000;
  }

  // ----- Where the table comes from -----

  /** A relocation of the linked file, already parsed: its address, its kind, and the
      symbol's value and addend where the instruction pairs need them. */
  datatype Record = Record(site: int, kind: nat, symbol: Known)

  datatype Known = Unknown | Value(value: int)

  datatype Table = Bad | Table(entries: seq<Entry>)

  /** What the module is linked as. */
  datatype Linked = Linked(base: nat, code: seq<byte>, bss: nat)

  /** The address a record stands for, or none when it lies outside the image or names nothing. */
  function Meaning(l: Linked, r: Record): Known
  {
    var at := r.site - l.base;
    if r.kind == 0 then
      if 0 <= at && at + 4 <= |l.code| && Load32(l.code, at) != 0 then Value(Load32(l.code, at)) else Unknown
    else if 0 <= at < |l.code| && r.symbol.Value? && r.symbol.value != 0 then r.symbol
    else Unknown
  }

  predicate Inside(l: Linked, value: int)
  {
    l.base <= value <= l.base + |l.code| + l.bss
  }

  /** Does the tool stop at this record? */
  predicate Refused(l: Linked, r: Record)
  {
    (r.kind != 0 && r.symbol.Unknown?) || (Meaning(l, r).Value? && !Inside(l, Meaning(l, r).value))
  }

  /** The sizes that a module of 32-bit offsets has. */
  predicate LinkedOk(l: Linked)
  {
    l.base >= 56 && 56 + |l.code| + l.bss < 0x1000_0000
  }

  function EntryOf(l: Linked, r: Record): Entry
    requires LinkedOk(l) && Meaning(l, r).Value? && Inside(l, Meaning(l, r).value)
  {
    Entry(56 + r.site - l.base, r.kind, 56 + Meaning(l, r).value - l.base)
  }

  predicate Stands(l: Linked, r: Record, e: Entry)
    requires LinkedOk(l)
  {
    Meaning(l, r).Value? && Inside(l, Meaning(l, r).value) && e == EntryOf(l, r)
  }

  /** collect_relocs, from records already parsed. Every entry stands for a record, every
      record that means something has its entry, and an address outside the module, or an
      instruction without its symbol, stops the tool. */
  method Collect(l: Linked, records: seq<Record>) returns (t: Table)
    requires LinkedOk(l)
    ensures t.Bad? <==> exists r :: r in records && Refused(l, r)
    ensures t.Table? ==> forall r :: r in records && Meaning(l, r).Value? ==> EntryOf(l, r) in t.entries
    ensures t.Table? ==> forall e :: e in t.entries ==> exists r :: r in records && Stands(l, r, e)
  {
    var found: seq<Entry> := [];
    for i := 0 to |records|
      invariant forall r :: r in records[..i] ==> !Refused(l, r)
      invariant forall r :: r in records[..i] && Meaning(l, r).Value? ==> EntryOf(l, r) in found
      invariant forall e :: e in found ==> exists r :: r in records[..i] && Stands(l, r, e)
    {
      var r := records[i];
      assert records[..i + 1] == records[..i] + [r];
      var at := r.site - l.base;
      var value: int;
      if r.kind == 0 {
        if !(0 <= at && at + 4 <= |l.code|) {
          continue;
        }
        value := LoadWord(l.code, at);
      } else if r.symbol.Unknown? {
        assert r in records && Refused(l, r);
        return Bad;
      } else {
        value := r.symbol.value;
      }
      if !(l.base <= r.site < l.base + |l.code|) {
        continue;
      }
      if value == 0 {
        continue;
      }
      if !(l.base <= value <= l.base + |l.code| + l.bss) {
        assert r in records && Refused(l, r);
        return Bad;
      }
      assert Stands(l, r, Entry(56 + r.site - l.base, r.kind, 56 + value - l.base));
      found := found + [Entry(56 + r.site - l.base, r.kind, 56 + value - l.base)];
    }
    return Table(found);
  }

  /** The fields of an image already hold what relocating for this base would store. */
  ghost predicate Settled(m: seq<byte>, es: seq<Entry>, base: nat)
    requires Fits(es, |m|)
  {
    forall i :: 0 <= i < |es| ==> Step(m, es[i], base, Whole) == m
  }

  lemma {:induction false} SettledStays(m: seq<byte>, es: seq<Entry>, base: nat)
    requires Fits(es, |m|) && Settled(m, es, base)
    ensures Relocated(m, es, base, Whole) == m
    decreases |es|
  {
    if es != [] {
      assert Step(m, es[0], base, Whole) == m;
      assert forall i :: 0 <= i < |es[1..]| ==> es[1..][i] == es[i + 1];
      SettledStays(m, es[1..], base);
    }
  }

  /** A table whose entries stand for records, in the image it belongs to: the header, the
      code, and the table itself after it. */
  ghost predicate Tabled(l: Linked, header: nat, tail: nat, records: seq<Record>, es: seq<Entry>)
  {
    && LinkedOk(l) && header == 56 && l.base + |l.code| + l.bss < 0x1_0000_0000 && (es != [] ==> tail >= 8)
    && (forall r :: r in records ==> !Refused(l, r))
    && (forall e :: e in es ==> exists r :: r in records && Stands(l, r, e))
  }

  lemma StandsFor(l: Linked, header: nat, tail: nat, records: seq<Record>, es: seq<Entry>, i: nat) returns (r: Record)
    requires Tabled(l, header, tail, records, es) && i < |es|
    ensures r in records && Stands(l, r, es[i]) && !Refused(l, r)
  {
    assert es[i] in es;
    r :| r in records && Stands(l, r, es[i]);
  }

  /** Relocating a module at its load base less the header restores every bit that
      collect_relocs read a word for, and every bit no field covers, wherever the module had
      been relocated before and in whatever order the table lists its entries: only the fields
      of instructions can differ, whose old contents the tool does not read. The table itself
      follows the code. */
  lemma {:induction false} MovedBack(l: Linked, header: seq<byte>, tail: seq<byte>, records: seq<Record>, es: seq<Entry>, base: nat, split: Split, n: nat)
    requires Tabled(l, |header|, |tail|, records, es)
    requires n < 8 * |header + l.code + tail| && forall i :: 0 <= i < |es| && Covers(es[i], n) ==> es[i].kind == 0
    ensures var m := header + l.code + tail;
      Fits(es, |m|) && ImageBit(Relocated(Relocated(m, es, base, split), es, l.base - 56, Whole), n) == ImageBit(m, n)
  {
    var m := header + l.code + tail;
    AllFit(l, header, tail, records, es);
    var x := Relocated(m, es, base, split);
    if !Covered(es, n) {
      Untouched(m, es, base, split, n);
    }
    forall i | 0 <= i < |es| && Covers(es[i], n)
      ensures Step(m, es[i], l.base - 56, Whole) == m
    {
      var r := StandsFor(l, |header|, |tail|, records, es, i);
      WordHeld(l, header, tail, r);
    }
    BitHome(x, m, es, l.base - 56, n);
  }

  lemma AllFit(l: Linked, header: seq<byte>, tail: seq<byte>, records: seq<Record>, es: seq<Entry>)
    requires Tabled(l, |header|, |tail|, records, es)
    ensures Fits(es, |header + l.code + tail|)
  {
    forall i | 0 <= i < |es|
      ensures es[i].site + 4 <= |header + l.code + tail|
    {
      var r := StandsFor(l, |header|, |tail|, records, es, i);
    }
  }

  /** A bit comes out as it is in m when every entry that covers it would leave m as it is. */
  lemma {:induction false} BitHome(x: seq<byte>, m: seq<byte>, es: seq<Entry>, home: nat, n: nat)
    requires |x| == |m| && n < 8 * |m| && Fits(es, |m|)
    requires forall i :: 0 <= i < |es| && Covers(es[i], n) ==> Step(m, es[i], home, Whole) == m
    requires ImageBit(x, n) == ImageBit(m, n) || Covered(es, n)
    ensures ImageBit(Relocated(x, es, home, Whole), n) == ImageBit(m, n)
    decreases |es|
  {
    if es != [] {
      var y := Step(x, es[0], home, Whole);
      StepBit(x, es[0], home, Whole, n);
      StepBit(m, es[0], home, Whole, n);
      assert Covers(es[0], n) ==> ImageBit(y, n) == ImageBit(m, n);
      if !Covers(es[0], n) && Covered(es, n) {
        var i :| 0 <= i < |es| && Covers(es[i], n);
        assert es[1..][i - 1] == es[i];
      }
      assert forall i :: 0 <= i < |es[1..]| ==> es[1..][i] == es[i + 1];
      BitHome(y, m, es[1..], home, n);
    }
  }

  /** Every ABS32 word that collect_relocs read is restored where no instruction's field shares
      its bits. */
  lemma {:induction false} WordBack(l: Linked, header: seq<byte>, tail: seq<byte>, records: seq<Record>, es: seq<Entry>, base: nat, split: Split,
                 r: Record, e: Entry)
    requires Tabled(l, |header|, |tail|, records, es)
    requires r in records && r.kind == 0 && Stands(l, r, e)
    requires AbsOnly(es, e.site)
    ensures var m := header + l.code + tail;
      Fits(es, |m|) && e.site + 4 <= |m|
      && Load32(Relocated(Relocated(m, es, base, split), es, l.base - 56, Whole), e.site) == Load32(m, e.site)
  {
    var m, at := header + l.code + tail, e.site;
    AllFit(l, header, tail, records, es);
    WordHeld(l, header, tail, r);
    var x := Relocated(Relocated(m, es, base, split), es, l.base - 56, Whole);
    forall j | 0 <= j < 32
      ensures Bit(Load32(x, at), j) == Bit(Load32(m, at), j)
    {
      AbsAt(es, at, j);
      MovedBack(l, header, tail, records, es, base, split, 8 * at + j);
      SameBitAt(x, m, at, j);
    }
    var k, p := Width(32);
    SameBits(k, Load32(x, at), Load32(m, at));
  }

  /** No instruction's field shares a bit with the word at that place. */
  predicate AbsOnly(es: seq<Entry>, site: nat)
  {
    forall i :: 0 <= i < |es| && es[i].kind != 0 ==> forall j :: 8 * site <= j < 8 * site + 32 ==> !Covers(es[i], j)
  }

  lemma AbsAt(es: seq<Entry>, site: nat, j: nat)
    requires AbsOnly(es, site) && j < 32
    ensures forall i :: 0 <= i < |es| && Covers(es[i], 8 * site + j) ==> es[i].kind == 0
  {
  }

  lemma {:induction false} SameBitAt(x: seq<byte>, m: seq<byte>, at: nat, j: nat)
    requires |x| == |m| && at + 4 <= |m| && j < 32 && ImageBit(x, 8 * at + j) == ImageBit(m, 8 * at + j)
    ensures Bit(Load32(x, at), j) == Bit(Load32(m, at), j)
  {
    BitLoad(x, at, j);
    BitLoad(m, at, j);
  }

  lemma AllAbs(l: Linked, header: nat, tail: nat, records: seq<Record>, es: seq<Entry>)
    requires Tabled(l, header, tail, records, es) && forall r :: r in records ==> r.kind == 0
    ensures forall i :: 0 <= i < |es| ==> es[i].kind == 0
  {
    forall i | 0 <= i < |es|
      ensures es[i].kind == 0
    {
      var r := StandsFor(l, header, tail, records, es, i);
    }
  }

  /** A module with no instruction pairs is restored whole. */
  lemma {:induction false} AllBack(l: Linked, header: seq<byte>, tail: seq<byte>, records: seq<Record>, es: seq<Entry>, base: nat, split: Split)
    requires Tabled(l, |header|, |tail|, records, es) && forall r :: r in records ==> r.kind == 0
    ensures var m := header + l.code + tail;
      Fits(es, |m|) && Relocated(Relocated(m, es, base, split), es, l.base - 56, Whole) == m
  {
    var m := header + l.code + tail;
    AllFit(l, header, tail, records, es);
    var x := Relocated(Relocated(m, es, base, split), es, l.base - 56, Whole);
    forall n | 0 <= n < 8 * |m|
      ensures ImageBit(x, n) == ImageBit(m, n)
    {
      AllAbs(l, |header|, |tail|, records, es);
      MovedBack(l, header, tail, records, es, base, split, n);
    }
    SameImage(x, m);
  }

  lemma StepHeld(m: seq<byte>, e: Entry, base: nat, split: Split)
    requires e.site + 4 <= |m|
    ensures Step(m, e, base, split) == m <==> HasAddress(e.kind, Load32(m, e.site), Address(e, base, split))
  {
    var w := Load32(m, e.site);
    HeldIs(e.kind, w, Address(e, base, split));
    LoadPut(m, e.site, Fixed(e.kind, w, Address(e, base, split)));
    StoreSame(m, e.site);
  }

  /** Every instruction of the table holds its address for this base. */
  predicate AllHeld(m: seq<byte>, es: seq<Entry>, base: nat)
    requires Fits(es, |m|)
  {
    forall i :: 0 <= i < |es| && es[i].kind != 0 ==> HasAddress(es[i].kind, Load32(m, es[i].site), Address(es[i], base, Whole))
  }

  /** And any module is, exactly if its instructions already held the addresses of their records
      where it was linked. */
  lemma {:induction false} FieldsBack(l: Linked, header: seq<byte>, tail: seq<byte>, records: seq<Record>, es: seq<Entry>, base: nat, split: Split)
    requires Tabled(l, |header|, |tail|, records, es)
    requires forall i, j :: 0 <= i < j < |es| ==> es[i].site + 4 <= es[j].site || es[j].site + 4 <= es[i].site
    ensures var m := header + l.code + tail;
      Fits(es, |m|) && (Relocated(Relocated(m, es, base, split), es, l.base - 56, Whole) == m <==> AllHeld(m, es, l.base - 56))
  {
    var m, home := header + l.code + tail, l.base - 56;
    AllFit(l, header, tail, records, es);
    RelocateAgain(m, es, base, split, home, Whole);
    forall i | 0 <= i < |es| && es[i].kind == 0
      ensures Step(m, es[i], home, Whole) == m
    {
      var r := StandsFor(l, |header|, |tail|, records, es, i);
      WordHeld(l, header, tail, r);
    }
    if AllHeld(m, es, home) {
      forall i | 0 <= i < |es|
        ensures Step(m, es[i], home, Whole) == m
      {
        StepHeld(m, es[i], home, Whole);
      }
      SettledStays(m, es, home);
    } else {
      var i :| 0 <= i < |es| && es[i].kind != 0 && !HasAddress(es[i].kind, Load32(m, es[i].site), Address(es[i], home, Whole));
      StepHeld(m, es[i], home, Whole);
      Unsettled(m, es, home, i);
    }
  }

  /** One pair for the address where the module starts: with the fields that a linker fills it is
      restored, and with empty ones it is not. */
  lemma PairsBack(base: nat, split: Split, header: seq<byte>, tail: seq<byte>)
    returns (filled: Linked, empty: Linked, records: seq<Record>, es: seq<Entry>)
    requires |header| == 56 && |tail| >= 8
    ensures Tabled(filled, 56, |tail|, records, es) && Tabled(empty, 56, |tail|, records, es)
    ensures |es| == 2 && es[0].kind == 1 && es[1].kind == 2 && |empty.code| == |filled.code| && empty.base == filled.base
    ensures var m := header + filled.code + tail;
      Fits(es, |m|) && Relocated(Relocated(m, es, base, split), es, filled.base - 56, Whole) == m
    ensures var m := header + empty.code + tail;
      Fits(es, |m|) && Relocated(Relocated(m, es, base, split), es, empty.base - 56, Whole) != m
  {
    filled, empty := Linked(0x1000, [0, 0x10, 0, 0, 0, 0, 0, 0], 0), Linked(0x1000, [0, 0, 0, 0, 0, 0, 0, 0], 0);
    records := [Record(0x1000, 1, Value(0x1000)), Record(0x1004, 2, Value(0x1000))];
    es := [Entry(56, 1, 56), Entry(60, 2, 56)];
    PairTabled(filled, |tail|, records, es);
    PairTabled(empty, |tail|, records, es);
    PairBack(filled, header, tail, records, es, base, split, header + filled.code + tail);
    PairBack(empty, header, tail, records, es, base, split, header + empty.code + tail);
  }

  lemma PairBack(l: Linked, header: seq<byte>, tail: seq<byte>, records: seq<Record>, es: seq<Entry>, base: nat, split: Split, m: seq<byte>)
    requires Tabled(l, |header|, |tail|, records, es) && |header| == 56 && l.base == 0x1000 && |l.code| == 8 && m == header + l.code + tail
    requires es == [Entry(56, 1, 56), Entry(60, 2, 56)] && Load32(m, 60) == 0
    ensures Fits(es, |m|) && (Relocated(Relocated(m, es, base, split), es, l.base - 56, Whole) == m <==> Load32(m, 56) / 0x1000 == 1)
  {
    FieldsBack(l, header, tail, records, es, base, split);
    PairHeld(m, es);
  }

  lemma PairTabled(l: Linked, tail: nat, records: seq<Record>, es: seq<Entry>)
    requires l.base == 0x1000 && |l.code| == 8 && l.bss == 0 && tail >= 8
    requires records == [Record(0x1000, 1, Value(0x1000)), Record(0x1004, 2, Value(0x1000))]
    requires es == [Entry(56, 1, 56), Entry(60, 2, 56)]
    ensures Tabled(l, 56, tail, records, es)
  {
    assert Stands(l, records[0], es[0]) && Stands(l, records[1], es[1]);
    assert records[0] in records && records[1] in records;
  }

  lemma PairHeld(m: seq<byte>, es: seq<Entry>)
    requires |m| >= 64 && es == [Entry(56, 1, 56), Entry(60, 2, 56)] && Load32(m, 60) == 0
    ensures AllHeld(m, es, 0x1000 - 56) <==> Load32(m, 56) / 0x1000 == 1
  {
    assert HasAddress(1, Load32(m, es[0].site), Address(es[0], 0x1000 - 56, Whole)) <==> Load32(m, 56) / 0x1000 == 1;
    assert HasAddress(2, Load32(m, es[1].site), Address(es[1], 0x1000 - 56, Whole));
  }

  lemma Unsettled(m: seq<byte>, es: seq<Entry>, home: nat, i: nat)
    requires Fits(es, |m|) && i < |es| && Step(m, es[i], home, Whole) != m
    requires forall i, j :: 0 <= i < j < |es| ==> es[i].site + 4 <= es[j].site || es[j].site + 4 <= es[i].site
    ensures Relocated(m, es, home, Whole) != m
  {
    if Relocated(m, es, home, Whole) == m {
      RelocatedHolds(m, es, home, Whole, i);
      StepHeld(m, es[i], home, Whole);
    }
  }

  /** No later entry's field shares a bit with this one's. */
  ghost predicate Last(es: seq<Entry>, i: nat)
    requires i < |es|
  {
    forall j, n: nat :: i < j < |es| && Covers(es[i], n) ==> !Covers(es[j], n)
  }

  /** A relocated image holds, in the field of every entry that no later one shares, the address
      where its target lies: what relocation is for. */
  lemma RelocatedHolds(m: seq<byte>, es: seq<Entry>, base: nat, split: Split, i: nat)
    requires Fits(es, |m|) && i < |es| && Last(es, i)
    ensures HasAddress(es[i].kind, Load32(Relocated(m, es, base, split), es[i].site), Address(es[i], base, split))
  {
    var x := Relocated(m, es, base, split);
    forall n | 0 <= n < 8 * |m|
      ensures ImageBit(Step(x, es[i], base, split), n) == ImageBit(x, n)
    {
      StepBit(x, es[i], base, split, n);
      if Covers(es[i], n) {
        OwnField(m, es, base, split, i, n);
      }
    }
    SameImage(Step(x, es[i], base, split), x);
    StepHeld(x, es[i], base, split);
  }

  /** A bit of a field is left as the last entry that covers it says. */
  lemma {:induction false} OwnField(x: seq<byte>, es: seq<Entry>, base: nat, split: Split, i: nat, n: nat)
    requires Fits(es, |x|) && i < |es| && n < 8 * |x| && Covers(es[i], n) && forall j :: i < j < |es| ==> !Covers(es[j], n)
    ensures ImageBit(Relocated(x, es, base, split), n) == FieldBit(es[i].kind, Address(es[i], base, split), n - 8 * es[i].site)
    decreases |es|
  {
    var y := Step(x, es[0], base, split);
    StepBit(x, es[0], base, split, n);
    assert forall k :: 0 <= k < |es[1..]| ==> es[1..][k] == es[k + 1];
    if i == 0 {
      forall k | 0 <= k < |es[1..]|
        ensures !Covers(es[1..][k], n)
      {
        assert es[1..][k] == es[k + 1];
      }
      Untouched(y, es[1..], base, split, n);
    } else {
      OwnField(y, es[1..], base, split, i - 1, n);
    }
  }

  lemma WordHeld(l: Linked, header: seq<byte>, tail: seq<byte>, r: Record)
    requires LinkedOk(l) && |header| == 56 && l.base + |l.code| + l.bss < 0x1_0000_0000
    requires r.kind == 0 && !Refused(l, r) && Meaning(l, r).Value?
    ensures var m, e := header + l.code + tail, EntryOf(l, r);
      e.site + 4 <= |m| && Step(m, e, l.base - 56, Whole) == m
  {
    var m, e := header + l.code + tail, EntryOf(l, r);
    var at := r.site - l.base;
    assert m[e.site] == l.code[at] && m[e.site + 1] == l.code[at + 1] && m[e.site + 2] == l.code[at + 2] && m[e.site + 3] == l.code[at + 3];
    assert Load32(m, e.site) == Address(e, l.base - 56, Whole);
    StoreSame(m, e.site);
  }

  lemma StoreSame(m: seq<byte>, at: nat)
    requires at + 4 <= |m|
    ensures Put32(m, at, Load32(m, at)) == m
  {
    forall n | 0 <= n < 8 * |m|
      ensures ImageBit(Put32(m, at, Load32(m, at)), n) == ImageBit(m, n)
    {
      BitPut(m, at, Load32(m, at), n);
      if 8 * at <= n < 8 * at + 32 {
        BitLoad(m, at, n - 8 * at);
      }
    }
    SameImage(Put32(m, at, Load32(m, at)), m);
  }

  /** The table as it is written: site and kind in one word, the target in the next. */
  function TableBytes(es: seq<Entry>): (b: seq<byte>)
    requires forall i :: 0 <= i < |es| ==> es[i].site < 0x1000_0000 && es[i].kind < 16
    ensures |b| == 8 * |es|
  {
    if es == [] then [] else Le32(es[0].kind * 0x1000_0000 + es[0].site) + Le32(es[0].target) + TableBytes(es[1..])
  }

  /** A table is read back as it was written. */
  lemma {:induction false} TableRead(front: seq<byte>, es: seq<Entry>, tail: seq<byte>)
    requires forall i :: 0 <= i < |es| ==> es[i].site < 0x1000_0000 && es[i].kind < 16
    ensures Entries(front + TableBytes(es) + tail, |front|, |es|) == es
    decreases |es|
  {
    if es != [] {
      var e := es[0];
      var head := Le32(e.kind * 0x1000_0000 + e.site) + Le32(e.target);
      var rest := TableBytes(es[1..]);
      TableRead(front + head, es[1..], tail);
      EntryRead(front, e, rest + tail);
      TableFirst(es, head, rest);
      TableJoined(front, head, rest, tail, front + (head + rest) + tail, es);
    }
  }

  lemma {:induction false} TableFirst(es: seq<Entry>, head: seq<byte>, rest: seq<byte>)
    requires es != [] && forall i :: 0 <= i < |es| ==> es[i].site < 0x1000_0000 && es[i].kind < 16
    requires head == Le32(es[0].kind * 0x1000_0000 + es[0].site) + Le32(es[0].target) && rest == TableBytes(es[1..])
    ensures TableBytes(es) == head + rest
  {
  }

  lemma TableJoined(front: seq<byte>, head: seq<byte>, rest: seq<byte>, tail: seq<byte>, m: seq<byte>, es: seq<Entry>)
    requires es != [] && |head| == 8 && |rest| == 8 * (|es| - 1) && m == front + (head + rest) + tail
    requires EntryAt(front + head + (rest + tail), |front|) == es[0]
    requires Entries((front + head) + rest + tail, |front + head|, |es| - 1) == es[1..]
    ensures Entries(m, |front|, |es|) == es
  {
    Regroup(front, head, rest, tail);
    EntriesCons(m, |front|, es);
  }

  lemma Regroup(a: seq<byte>, b: seq<byte>, c: seq<byte>, d: seq<byte>)
    ensures a + (b + c) + d == (a + b) + c + d && a + (b + c) + d == a + b + (c + d)
  {
  }

  lemma EntriesCons(m: seq<byte>, at: nat, es: seq<Entry>)
    requires es != [] && at + 8 * |es| <= |m| && EntryAt(m, at) == es[0] && Entries(m, at + 8, |es| - 1) == es[1..]
    ensures Entries(m, at, |es|) == es
  {
    forall i | 0 <= i < |es|
      ensures Entries(m, at, |es|)[i] == es[i]
    {
      if i > 0 {
        assert Entries(m, at + 8, |es| - 1)[i - 1] == es[1..][i - 1];
      }
    }
  }

  lemma KindSite(kind: nat, site: nat)
    requires site < 0x1000_0000
    ensures (kind * 0x1000_0000 + site) % 0x1000_0000 == site && (kind * 0x1000_0000 + site) / 0x1000_0000 == kind
  {
  }

  lemma EntryRead(front: seq<byte>, e: Entry, tail: seq<byte>)
    requires e.site < 0x1000_0000 && e.kind < 16
    ensures EntryAt(front + (Le32(e.kind * 0x1000_0000 + e.site) + Le32(e.target)) + tail, |front|) == e
  {
    var w := e.kind * 0x1000_0000 + e.site;
    var m := front + (Le32(w) + Le32(e.target)) + tail;
    assert m[|front|..|front| + 4] == Le32(w) && m[|front| + 4..|front| + 8] == Le32(e.target);
    LoadLe32(w, m, |front|);
    KindSite(e.kind, e.site);
    LoadLe32(e.target, m, |front| + 4);
  }
}
