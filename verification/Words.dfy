/** Single bits of numbers, and 32-bit words in a sequence of bytes. */
module Words {
  import opened Bits

  /** Bit k of x. */
  function Bit(x: nat, k: nat): bool
  {
    if k == 0 then x % 2 == 1 else Bit(x / 2, k - 1)
  }

  lemma {:induction false} BitOfZero(k: nat)
    ensures !Bit(0, k)
  {
    if k > 0 {
      BitOfZero(k - 1);
    }
  }

  lemma {:induction false} BitAnd(a: nat, b: nat, k: nat)
    ensures Bit(And(a, b), k) == (Bit(a, k) && Bit(b, k))
  {
    AndStep(a, b);
    if k > 0 {
      BitAnd(a / 2, b / 2, k - 1);
    }
  }

  lemma {:induction false} OrStep(a: nat, b: nat)
    ensures Or(a, b) == 2 * Or(a / 2, b / 2) + (if a % 2 == 1 || b % 2 == 1 then 1 else 0)
  {
  }

  lemma OrHalf(a: nat, b: nat) returns (x: nat)
    ensures x == Or(a, b) && x / 2 == Or(a / 2, b / 2) && (x % 2 == 1 <==> a % 2 == 1 || b % 2 == 1)
  {
    OrStep(a, b);
    x := Or(a, b);
  }

  lemma {:induction false} BitOr(a: nat, b: nat, k: nat)
    ensures Bit(Or(a, b), k) == (Bit(a, k) || Bit(b, k))
  {
    var x := OrHalf(a, b);
    if k > 0 {
      BitOr(a / 2, b / 2, k - 1);
    }
  }

  /** Bits of q * 2^n + r. */
  lemma {:induction false} BitSplit(n: nat, q: nat, r: nat, x: nat, k: nat)
    requires r < Pow2(n) && x == q * Pow2(n) + r
    ensures Bit(x, k) == if k < n then Bit(r, k) else Bit(q, k - n)
  {
    if n > 0 {
      Halve(q, Pow2(n - 1), r, x);
      if k > 0 {
        BitSplit(n - 1, q, r / 2, x / 2, k - 1);
      }
    }
  }

  lemma {:induction false} BitOnes(n: nat, k: nat)
    ensures Bit(Pow2(n) - 1, k) == (k < n)
  {
    if n == 0 {
      BitOfZero(k);
    } else if k > 0 {
      BitOnes(n - 1, k - 1);
      assert (Pow2(n) - 1) / 2 == Pow2(n - 1) - 1;
    }
  }

  /** Numbers below 2^n with the same n bits are equal. */
  lemma {:induction false} SameBits(n: nat, a: nat, b: nat)
    requires a < Pow2(n) && b < Pow2(n) && forall k :: 0 <= k < n ==> Bit(a, k) == Bit(b, k)
    ensures a == b
  {
    if n > 0 {
      forall k | 0 <= k < n - 1
        ensures Bit(a / 2, k) == Bit(b / 2, k)
      {
        assert Bit(a, k + 1) == Bit(b, k + 1);
      }
      assert Bit(a, 0) == Bit(b, 0);
      SameBits(n - 1, a / 2, b / 2);
    }
  }

  // ----- Words in bytes -----

  /** A word as four bytes, the lowest first. */
  function Le32(v: word): (b: seq<byte>)
    ensures |b| == 4
  {
    [v % 256, v / 0x100 % 256, v / 0x1_0000 % 256, v / 0x100_0000]
  }

  function Put32(m: seq<byte>, at: nat, v: word): (n: seq<byte>)
    requires at + 4 <= |m|
    ensures |n| == |m|
  {
    m[..at] + Le32(v) + m[at + 4..]
  }

  lemma Digits(v: nat)
    ensures v == v % 256 + 0x100 * (v / 0x100 % 256) + 0x1_0000 * (v / 0x1_0000 % 256) + 0x100_0000 * (v / 0x100_0000)
  {
    var q := v / 256;
    assert v / 0x1_0000 == q / 256 && v / 0x100_0000 == q / 256 / 256;
    TwoDigits(v);
    TwoDigits(q);
    TwoDigits(q / 256);
  }

  lemma TwoDigits(v: nat)
    ensures v == v % 256 + 256 * (v / 256)
  {
  }

  lemma LoadLe32(v: word, m: seq<byte>, at: nat)
    requires at + 4 <= |m| && m[at..at + 4] == Le32(v)
    ensures Load32(m, at) == v
  {
    Digits(v);
    assert m[at] == Le32(v)[0] && m[at + 1] == Le32(v)[1] && m[at + 2] == Le32(v)[2] && m[at + 3] == Le32(v)[3];
  }

  lemma LoadPut(m: seq<byte>, at: nat, v: word)
    requires at + 4 <= |m|
    ensures Load32(Put32(m, at, v), at) == v
  {
    LoadLe32(v, Put32(m, at, v), at);
  }

  /** Bit n of a sequence of bytes. */
  function ImageBit(m: seq<byte>, n: nat): bool
    requires n < 8 * |m|
  {
    Bit(m[n / 8], n % 8)
  }

  /** Bits of a word are the bits of its bytes. */
  lemma {:induction false} BitLoad(m: seq<byte>, at: nat, j: nat)
    requires at + 4 <= |m| && j < 32
    ensures Bit(Load32(m, at), j) == ImageBit(m, 8 * at + j)
  {
    var b0: nat, b1: nat, b2: nat, b3: nat := m[at], m[at + 1], m[at + 2], m[at + 3];
    Bytes4(b0, b1, b2, b3, Load32(m, at), j);
    assert (8 * at + j) / 8 == at + j / 8 && (8 * at + j) % 8 == j % 8;
  }

  lemma Bytes4(b0: nat, b1: nat, b2: nat, b3: nat, w: nat, j: nat)
    requires b0 < 256 && b1 < 256 && b2 < 256 && b3 < 256 && j < 32 && w == b0 + 0x100 * b1 + 0x1_0000 * b2 + 0x100_0000 * b3
    ensures Bit(w, j) == Bit(if j < 8 then b0 else if j < 16 then b1 else if j < 24 then b2 else b3, j % 8)
  {
    var e, p := EightBits();
    var q1, q2 := b1 + 256 * b2 + 0x1_0000 * b3, b2 + 256 * b3;
    BitSplit(e, q1, b0, w, j);
    if j >= 8 {
      BitSplit(e, q2, b1, q1, j - 8);
      if j >= 16 {
        BitSplit(e, b3, b2, q2, j - 16);
      }
    }
  }

  lemma EightBits() returns (e: nat, p: nat)
    ensures e == 8 && p == 256 && Pow2(e) == p
  {
    Pow2Values();
    e, p := 8, 256;
  }

  /** Storing a word changes its 32 bits and no other. */
  lemma {:induction false} BitPut(m: seq<byte>, at: nat, v: word, n: nat)
    requires at + 4 <= |m| && n < 8 * |m|
    ensures ImageBit(Put32(m, at, v), n) == if 8 * at <= n < 8 * at + 32 then Bit(v, n - 8 * at) else ImageBit(m, n)
  {
    if 8 * at <= n < 8 * at + 32 {
      LoadPut(m, at, v);
      BitLoad(Put32(m, at, v), at, n - 8 * at);
    } else {
      assert n / 8 < at || n / 8 >= at + 4;
    }
  }

  /** Sequences of bytes with the same bits are equal. */
  lemma SameImage(a: seq<byte>, b: seq<byte>)
    requires |a| == |b| && forall n :: 0 <= n < 8 * |a| ==> ImageBit(a, n) == ImageBit(b, n)
    ensures a == b
  {
    forall i | 0 <= i < |a|
      ensures a[i] == b[i]
    {
      var e, p := EightBits();
      forall k | 0 <= k < e
        ensures Bit(a[i], k) == Bit(b[i], k)
      {
        assert ImageBit(a, 8 * i + k) == ImageBit(b, 8 * i + k);
        assert (8 * i + k) / 8 == i && (8 * i + k) % 8 == k;
      }
      SameBits(e, a[i], b[i]);
    }
  }
}
