/** SHA-256 as FIPS 180-4 defines it, the streaming code that computes it, and
    HMAC (RFC 2104) and PBKDF2 (RFC 8018) built on it. */
module Sha256 {
  import opened Bits
  import opened BlockHash


  // ----- FIPS 180-4, sections 4.1.2, 4.2.2, 5 and 6.2 -----

  /** The constants of section 4.2.2. */
  function K(t: nat): word
    requires t < 64
  {
    match t
    case 0 => 0x428a2f98 case 1 => 0x71374491 case 2 => 0xb5c0fbcf case 3 => 0xe9b5dba5
    case 4 => 0x3956c25b case 5 => 0x59f111f1 case 6 => 0x923f82a4 case 7 => 0xab1c5ed5
    case 8 => 0xd807aa98 case 9 => 0x12835b01 case 10 => 0x243185be case 11 => 0x550c7dc3
    case 12 => 0x72be5d74 case 13 => 0x80deb1fe case 14 => 0x9bdc06a7 case 15 => 0xc19bf174
    case 16 => 0xe49b69c1 case 17 => 0xefbe4786 case 18 => 0x0fc19dc6 case 19 => 0x240ca1cc
    case 20 => 0x2de92c6f case 21 => 0x4a7484aa case 22 => 0x5cb0a9dc case 23 => 0x76f988da
    case 24 => 0x983e5152 case 25 => 0xa831c66d case 26 => 0xb00327c8 case 27 => 0xbf597fc7
    case 28 => 0xc6e00bf3 case 29 => 0xd5a79147 case 30 => 0x06ca6351 case 31 => 0x14292967
    case 32 => 0x27b70a85 case 33 => 0x2e1b2138 case 34 => 0x4d2c6dfc case 35 => 0x53380d13
    case 36 => 0x650a7354 case 37 => 0x766a0abb case 38 => 0x81c2c92e case 39 => 0x92722c85
    case 40 => 0xa2bfe8a1 case 41 => 0xa81a664b case 42 => 0xc24b8b70 case 43 => 0xc76c51a3
    case 44 => 0xd192e819 case 45 => 0xd6990624 case 46 => 0xf40e3585 case 47 => 0x106aa070
    case 48 => 0x19a4c116 case 49 => 0x1e376c08 case 50 => 0x2748774c case 51 => 0x34b0bcb5
    case 52 => 0x391c0cb3 case 53 => 0x4ed8aa4a case 54 => 0x5b9cca4f case 55 => 0x682e6ff3
    case 56 => 0x748f82ee case 57 => 0x78a5636f case 58 => 0x84c87814 case 59 => 0x8cc70208
    case 60 => 0x90befffa case 61 => 0xa4506ceb case 62 => 0xbef9a3f7 case _ => 0xc67178f2
  }

  /** The eight words of a hash value, and the eight working variables. */
  datatype Eight = Eight(a: word, b: word, c: word, d: word, e: word, f: word, g: word, h: word)

  const IV: Eight := Eight(0x6a09e667, 0xbb67ae85, 0x3c6ef372, 0xa54ff53a, 0x510e527f, 0x9b05688c, 0x1f83d9ab, 0x5be0cd19)

  function Xor3(a: word, b: word, c: word): word { XorWord(XorWord(a, b), c) }

  function BigSigma0(x: word): word { Xor3(Rotr(x, 2), Rotr(x, 13), Rotr(x, 22)) }
  function BigSigma1(x: word): word { Xor3(Rotr(x, 6), Rotr(x, 11), Rotr(x, 25)) }
  function SmallSigma0(x: word): word { Xor3(Rotr(x, 7), Rotr(x, 18), x / 8) }
  function SmallSigma1(x: word): word { Xor3(Rotr(x, 17), Rotr(x, 19), x / 1024) }
  function Ch(x: word, y: word, z: word): word { XorWord(AndWord(x, y), AndWord(NotWord(x), z)) }
  function Maj(x: word, y: word, z: word): word { Xor3(AndWord(x, y), AndWord(x, z), AndWord(y, z)) }

  /** Word t of the message schedule. */
  function W(block: seq<byte>, t: nat): word
    requires |block| == 64 && t < 64
  {
    if t < 16 then BE32(block, 4 * t)
    else U32(SmallSigma1(W(block, t - 2)) + W(block, t - 7) + SmallSigma0(W(block, t - 15)) + W(block, t - 16))
  }

  function BE32(m: seq<byte>, i: nat): word
    requires i + 4 <= |m|
  {
    0x100_0000 * m[i] as nat + 0x1_0000 * m[i + 1] as nat + 0x100 * m[i + 2] as nat + m[i + 3] as nat
  }

  /** The temporaries T1 and T2 of a round. */
  function T1(v: Eight, k: word, w: word): nat { v.h + BigSigma1(v.e) + Ch(v.e, v.f, v.g) + k + w }
  function T2(v: Eight): nat { BigSigma0(v.a) + Maj(v.a, v.b, v.c) }

  function Round(v: Eight, k: word, w: word): Eight
  {
    Eight(U32(T1(v, k, w) + T2(v)), v.a, v.b, v.c, U32(v.d + T1(v, k, w)), v.e, v.f, v.g)
  }

  /** The working variables after n rounds on a block. */
  function Rounds(v: Eight, block: seq<byte>, n: nat): Eight
    requires |block| == 64 && n <= 64
    decreases n, v
  {
    if n == 0 then v else Round(Rounds(v, block, n - 1), K(n - 1), W(block, n - 1))
  }

  function AddEight(v: Eight, w: Eight): Eight
  {
    Eight(AddWord(v.a, w.a), AddWord(v.b, w.b), AddWord(v.c, w.c), AddWord(v.d, w.d),
          AddWord(v.e, w.e), AddWord(v.f, w.f), AddWord(v.g, w.g), AddWord(v.h, w.h))
  }

  /** Section 6.2.2 for one block. Only blocks of 64 bytes are ever compressed. */
  function Compress(v: Eight, block: seq<byte>): Eight
  {
    if |block| == 64 then AddEight(v, Rounds(v, block, 64)) else v
  }

  /** The n low bytes of a number, most significant first. */
  function ToBE(n: nat, x: nat): (b: seq<byte>)
    ensures |b| == n
    decreases n, x
  {
    if n == 0 then [] else ToBE(n - 1, x / 256) + [x % 256]
  }

  /** The number of zero bytes that bring n + 1 bytes to 56 modulo 64. */
  function ZeroPad(n: nat): (k: nat)
    ensures (n + 1 + k) % 64 == 56 && k < 64
  {
    (119 - n % 64) % 64
  }

  lemma EightMore(n: nat)
    requires n % 64 == 56
    ensures (n + 8) % 64 == 0
  {
  }

  /** Section 5.1.1. The length is kept in 64 bits. */
  function Padded(m: seq<byte>): (p: seq<byte>)
    ensures |p| % 64 == 0
  {
    EightMore(|m| + 1 + ZeroPad(|m|));
    m + [0x80] + Zeros(ZeroPad(|m|)) + ToBE(8, (8 * |m|) % 0x1_0000_0000_0000_0000)
  }

  /** The first n words, in bytes. */
  function BytesOf(ws: seq<word>, n: nat): (b: seq<byte>)
    requires n <= |ws|
    ensures |b| == 4 * n
    decreases n, ws
  {
    if n == 0 then [] else BytesOf(ws, n - 1) + ToBE(4, ws[n - 1])
  }

  function Words(v: Eight): (ws: seq<word>)
    ensures |ws| == 8
  {
    [v.a, v.b, v.c, v.d, v.e, v.f, v.g, v.h]
  }

  /** Section 6.2, over a block function f. SHA-256 is the case f = Compress. */
  ghost function Digest(f: Step<Eight>, m: seq<byte>): (d: seq<byte>)
    ensures |d| == 32
  {
    BytesOf(Words(HashBlocks(f, IV, Padded(m))), 8)
  }

  ghost function Sha256Of(m: seq<byte>): (d: seq<byte>)
    ensures |d| == 32
  {
    Digest(Compress, m)
  }

  // ----- The code -----

  method Rotate3(x: word, i: nat, j: nat, k: nat) returns (y: word)
    requires 0 < i < 32 && 0 < j < 32 && 0 < k < 32
    ensures y == Xor3(Rotr(x, i), Rotr(x, j), Rotr(x, k))
  {
    var a := Ror(x, i);
    var b := Ror(x, j);
    var c := Ror(x, k);
    y := XorWord(XorWord(a, b), c);
  }

  /** The small sigma functions: two rotations and a shift. */
  method Sigma(x: word, i: nat, j: nat, shifted: word) returns (y: word)
    requires 0 < i < 32 && 0 < j < 32
    ensures y == Xor3(Rotr(x, i), Rotr(x, j), shifted)
  {
    var a := Ror(x, i);
    var b := Ror(x, j);
    y := XorWord(XorWord(a, b), shifted);
  }

  method LoadBE(p: seq<byte>, i: nat) returns (w: word)
    requires i + 4 <= |p|
    ensures w == BE32(p, i)
  {
    var b0: nat, b1: nat, b2: nat, b3: nat := p[i], p[i + 1], p[i + 2], p[i + 3];
    OrShift8(b3, b2);
    OrShift16(b3 + 0x100 * b2, b1);
    OrShift24(b3 + 0x100 * b2 + 0x1_0000 * b1, b0);
    OrCommutes(U32(b0 * 0x100_0000), b3 + 0x100 * b2 + 0x1_0000 * b1);
    w := Or(U32(b0 * 0x100_0000), Or(Or(b3, U32(b2 * 0x100)), U32(b1 * 0x1_0000)));
  }

  /** The first loops of sha256_block: the sixteen words of the block, then the rest. */
  method Schedule(p: seq<byte>, w: array<word>)
    requires |p| == 64 && w.Length == 64
    modifies w
    ensures forall t :: 0 <= t < 64 ==> w[t] == W(p, t)
  {
    for i := 0 to 16
      invariant forall t :: 0 <= t < i ==> w[t] == W(p, t)
    {
      var x := LoadBE(p, 4 * i);
      w[i] := x;
    }
    for i := 16 to 64
      invariant forall t :: 0 <= t < i ==> w[t] == W(p, t)
    {
      var x := NextWord(p, i, w[i - 16], w[i - 15], w[i - 7], w[i - 2]);
      w[i] := x;
    }
  }

  method NextWord(ghost p: seq<byte>, ghost t: nat, w16: word, w15: word, w7: word, w2: word) returns (x: word)
    requires |p| == 64 && 16 <= t < 64
    requires w16 == W(p, t - 16) && w15 == W(p, t - 15) && w7 == W(p, t - 7) && w2 == W(p, t - 2)
    ensures x == W(p, t)
  {
    var s0 := Sigma(w15, 7, 18, w15 / 8);
    var s1 := Sigma(w2, 17, 19, w2 / 1024);
    x := U32(w16 as nat + s0 + w7 + s1);
    ScheduleStep(p, t, s0, s1, w16, w7, x);
  }

  lemma ScheduleStep(p: seq<byte>, t: nat, s0: word, s1: word, w16: word, w7: word, x: word)
    requires |p| == 64 && 16 <= t < 64 && w16 == W(p, t - 16) && w7 == W(p, t - 7)
    requires s0 == SmallSigma0(W(p, t - 15)) && s1 == SmallSigma1(W(p, t - 2))
    requires x == U32(w16 as nat + s0 + w7 + s1)
    ensures x == W(p, t)
  {
  }

  method TempOne(v: Eight, k: word, w: word) returns (t1: word)
    ensures t1 == U32(T1(v, k, w))
  {
    var S1 := Rotate3(v.e, 6, 11, 25);
    var ch := XorWord(AndWord(v.e, v.f), AndWord(NotWord(v.e), v.g));
    t1 := U32(v.h as nat + S1 + ch + k + w);
  }

  method TempTwo(v: Eight) returns (t2: word)
    ensures t2 == U32(T2(v))
  {
    var S0 := Rotate3(v.a, 2, 13, 22);
    var mj := XorWord(XorWord(AndWord(v.a, v.b), AndWord(v.a, v.c)), AndWord(v.b, v.c));
    t2 := U32(S0 as nat + mj);
  }

  /** One turn of the round loop. */
  method RoundOf(v: Eight, k: word, w: word) returns (v': Eight)
    ensures v' == Round(v, k, w)
  {
    var t1 := TempOne(v, k, w);
    var t2 := TempTwo(v);
    v' := Eight(AddWord(t1, t2), v.a, v.b, v.c, AddWord(v.d, t1), v.e, v.f, v.g);
    RoundSums(v.d, T1(v, k, w), T2(v), t1, t2);
  }

  lemma RoundSums(d: word, a: nat, b: nat, t1: word, t2: word)
    requires t1 == U32(a) && t2 == U32(b)
    ensures AddWord(t1, t2) == U32(a + b) && AddWord(d, t1) == U32(d + a)
  {
    WrapSum(a, b);
    WrapSum(d, a);
  }

  lemma WrapSum(a: nat, b: nat)
    ensures U32(U32(a) as nat + U32(b)) == U32(a + b)
  {
  }

  method RoundLoop(h: Eight, ghost p: seq<byte>, w: seq<word>) returns (v: Eight)
    requires |p| == 64 == |w| && forall t :: 0 <= t < 64 ==> w[t] == W(p, t)
    ensures v == Rounds(h, p, 64)
  {
    v := h;
    for i := 0 to 64
      invariant v == Rounds(h, p, i)
    {
      v := RoundOf(v, K(i), w[i]);
    }
  }

  /** sha256_block */
  method BlockOf(h: Eight, p: seq<byte>) returns (h': Eight)
    requires |p| == 64
    ensures h' == Compress(h, p)
  {
    var w := new word[64];
    Schedule(p, w);
    var v := RoundLoop(h, p, w[..]);
    h' := Eight(AddWord(h.a, v.a), AddWord(h.b, v.b), AddWord(h.c, v.c), AddWord(h.d, v.d),
                AddWord(h.e, v.e), AddWord(h.f, v.f), AddWord(h.g, v.g), AddWord(h.h, v.h));
  }

  lemma {:induction false} ByteAt(n: nat, x: nat, i: nat)
    requires i < n
    ensures ToBE(n, x)[i] == (x / Pow2(8 * (n - 1 - i))) % 256
  {
    if i < n - 1 {
      ByteAt(n - 1, x / 256, i);
      DivideTwice(x, n - 2 - i);
    } else {
      assert Pow2(0) == 1;
    }
  }

  /** `tail[i] = (uint8_t)(bits >> (56 - 8 * i))` */
  method BigEndian8(bits: nat) returns (tail: seq<byte>)
    ensures tail == ToBE(8, bits)
  {
    tail := [];
    for i := 0 to 8
      invariant tail == ToBE(8, bits)[..i]
    {
      ByteAt(8, bits, i);
      tail := tail + [(bits / Pow2(56 - 8 * i)) % 256];
    }
  }

  /** `out[4 * i] = (uint8_t)(h[i] >> 24)` and its three neighbours, for every word. */
  method Output(h: seq<word>) returns (out: seq<byte>)
    requires |h| == 8
    ensures out == BytesOf(h, 8)
  {
    out := [];
    for i := 0 to 8
      invariant out == BytesOf(h, i)
    {
      var b := StoreBE(h[i]);
      out := out + b;
    }
  }

  method StoreBE(w: word) returns (b: seq<byte>)
    ensures b == ToBE(4, w)
  {
    b := [(w / 0x100_0000) % 256, (w / 0x1_0000) % 256, (w / 0x100) % 256, w % 256];
    Pow2Values();
    ByteAt(4, w, 0);
    ByteAt(4, w, 1);
    ByteAt(4, w, 2);
    ByteAt(4, w, 3);
    assert Pow2(0) == 1;
  }

  /** f is the block function of SHA-256; that is looked up only where the block function is
      computed. */
  ghost predicate IsCompress(f: Step<Eight>)
  {
    forall v: Eight, b: seq<byte> {:trigger Compress(v, b)} :: |b| == 64 ==> f(v, b) == Compress(v, b)
  }

  lemma LengthSum(len: nat, kept: nat, more: nat)
    requires kept == len % 0x1_0000_0000_0000_0000
    ensures (kept + more) % 0x1_0000_0000_0000_0000 == (len + more) % 0x1_0000_0000_0000_0000
  {
  }

  lemma PadCount(len: nat, k: nat)
    requires k <= ZeroPad(len)
    ensures (len + 1 + k) % 64 == 56 <==> k == ZeroPad(len)
  {
    var z := ZeroPad(len);
    if (len + 1 + k) % 64 == 56 {
      SameResidue(len + 1 + k, z - k);
    }
  }

  lemma SameResidue(a: nat, d: nat)
    requires d < 64 && (a + d) % 64 == a % 64
    ensures d == 0
  {
  }

  lemma BitCount(len: nat, kept: nat)
    requires kept == len % 0x1_0000_0000_0000_0000
    ensures (kept * 8) % 0x1_0000_0000_0000_0000 == (8 * len) % 0x1_0000_0000_0000_0000
  {
    var q := len / 0x1_0000_0000_0000_0000;
    assert 8 * len == (8 * q) * 0x1_0000_0000_0000_0000 + 8 * kept;
  }

  lemma Extend(before: seq<byte>, data: seq<byte>, p: nat, p': nat)
    requires p <= p' <= |data|
    ensures before + data[..p] + data[p..p'] == before + data[..p']
  {
  }

  /** ubiqos_sha256_t. `msg` is what has been fed to it, and f the block function. */
  class Stream {
    var h: Eight
    var len: nat
    var n: nat
    const buf: array<byte>
    ghost var msg: seq<byte>
    ghost const f: Step<Eight>

    ghost predicate Valid()
      reads this, buf
    {
      && buf.Length == 64
      && len == |msg| % 0x1_0000_0000_0000_0000
      && n < 64
      && Stands(f, IV, msg, n, h, buf[..n])
      && IsCompress(f)
    }

    /** ubiqos_sha256_init */
    constructor (ghost f: Step<Eight>)
      requires IsCompress(f)
      ensures Valid() && msg == [] && fresh(buf) && this.f == f
    {
      h := IV;
      len, n := 0, 0;
      buf := new byte[64];
      msg := [];
      this.f := f;
      new;
      assert buf[..0] == [];
    }

    /** ubiqos_sha256_update, which takes a length of 32 bits. */
    method Update(data: seq<byte>)
      requires Valid() && |data| < 0x1_0000_0000
      modifies this, buf
      ensures Valid() && msg == old(msg) + data
    {
      LengthSum(|msg|, len, |data|);
      len := (len + |data|) % 0x1_0000_0000_0000_0000;
      Absorb(data);
    }

    method Absorb(data: seq<byte>)
      requires buf.Length == 64 && n < 64 && Stands(f, IV, msg, n, h, buf[..n]) && IsCompress(f)
      modifies this, buf
      ensures n < 64 && Stands(f, IV, msg, n, h, buf[..n])
      ensures msg == old(msg) + data && len == old(len)
    {
      ghost var before, kept := msg, len;
      var p := 0;
      while p < |data|
        invariant 0 <= p <= |data| && n < 64 && len == kept
        invariant msg == before + data[..p]
        invariant Stands(f, IV, msg, n, h, buf[..n])
      {
        p := TakeAfter(data, p, before);
      }
      assert data[..p] == data;
    }

    method TakeAfter(data: seq<byte>, p: nat, ghost before: seq<byte>) returns (p': nat)
      requires p < |data| && buf.Length == 64 && n < 64 && msg == before + data[..p]
      requires Stands(f, IV, msg, n, h, buf[..n]) && IsCompress(f)
      modifies this, buf
      ensures p < p' <= |data| && len == old(len) && n < 64
      ensures msg == before + data[..p']
      ensures Stands(f, IV, msg, n, h, buf[..n])
    {
      p' := Take(data, p);
      Extend(before, data, p, p');
    }

    /** One turn of the loop: fill the buffer, and hash it when it is full. */
    method Take(data: seq<byte>, p: nat) returns (p': nat)
      requires p < |data| && buf.Length == 64 && n < 64
      requires Stands(f, IV, msg, n, h, buf[..n]) && IsCompress(f)
      modifies this, buf
      ensures p < p' <= |data| && len == old(len) && n < 64
      ensures msg == old(msg) + data[p..p']
      ensures Stands(f, IV, msg, n, h, buf[..n])
    {
      var room := 64 - n;
      var take := if |data| - p < room then |data| - p else room;
      p' := p + take;
      Append(data[p..p']);
      if n == 64 {
        HashFull();
      }
    }

    method Append(piece: seq<byte>)
      requires buf.Length == 64 && n + |piece| <= 64
      requires Stands(f, IV, msg, n, h, buf[..n])
      modifies this`msg, this`n, buf
      ensures msg == old(msg) + piece && n == old(n) + |piece|
      ensures n < 64 ==> Stands(f, IV, msg, n, h, buf[..n])
      ensures n == 64 ==> Stands(f, IV, msg, 0, f(h, buf[..n]), [])
    {
      StandsMore(f, IV, msg, n, h, buf[..n], piece);
      CopyIn(piece);
      msg := msg + piece;
      n := n + |piece|;
    }

    method HashFull()
      requires buf.Length == 64 == n
      requires Stands(f, IV, msg, 0, f(h, buf[..n]), []) && IsCompress(f)
      modifies this
      ensures msg == old(msg) && len == old(len) && n == 0 && Stands(f, IV, msg, n, h, buf[..n])
    {
      assert buf[..] == buf[..n];
      h := BlockStep(h, buf[..]);
      n := 0;
      assert buf[..0] == [];
    }

    /** memcpy(buf + n, piece, |piece|) */
    method CopyIn(piece: seq<byte>)
      requires buf.Length == 64 && n + |piece| <= 64
      modifies buf
      ensures buf[..n + |piece|] == old(buf[..n]) + piece
    {
      for i := 0 to |piece|
        invariant buf[..n + i] == old(buf[..n]) + piece[..i]
      {
        buf[n + i] := piece[i];
      }
    }

    /** ubiqos_sha256_final */
    method Final() returns (out: seq<byte>)
      requires Valid()
      modifies this, buf
      ensures out == Digest(f, old(msg))
    {
      ghost var m := msg;
      var bits := (len * 8) % 0x1_0000_0000_0000_0000;
      BitCount(|m|, len);
      PadTo56();
      var tail := BigEndian8(bits);
      Update(tail);
      out := Output(Words(h));
    }

    /** The 0x80 byte, and zeros until eight bytes of the block are left. */
    method PadTo56()
      requires Valid()
      modifies this, buf
      ensures Valid() && msg == old(msg) + [0x80] + Zeros(ZeroPad(|old(msg)|))
    {
      ghost var m, k := msg, 0;
      Update([0x80]);
      while n != 56
        invariant Valid() && k <= ZeroPad(|m|) && msg == m + [0x80] + Zeros(k)
        decreases ZeroPad(|m|) - k
      {
        PadCount(|m|, k);
        Update([0]);
        assert Zeros(k + 1) == Zeros(k) + [0];
        k := k + 1;
      }
      PadCount(|m|, k);
    }

    method BlockStep(v: Eight, b: seq<byte>) returns (v': Eight)
      requires |b| == 64 && IsCompress(f)
      ensures v' == f(v, b)
    {
      v' := BlockOf(v, b);
    }
  }

  /** ubiqos_sha256 */
  method Hash(data: seq<byte>, ghost f: Step<Eight>) returns (out: seq<byte>)
    requires |data| < 0x1_0000_0000 && IsCompress(f)
    ensures out == Digest(f, data)
  {
    var s := new Stream(f);
    s.Update(data);
    assert s.msg == data;
    out := s.Final();
  }

  method HashPieces(pieces: seq<seq<byte>>, ghost f: Step<Eight>) returns (out: seq<byte>)
    requires forall i :: 0 <= i < |pieces| ==> |pieces[i]| < 0x1_0000_0000
    requires IsCompress(f)
    ensures out == Digest(f, Concat(pieces))
  {
    var s := new Stream(f);
    for i := 0 to |pieces|
      invariant s.Valid() && fresh(s) && fresh(s.buf) && s.f == f && s.msg == Concat(pieces[..i])
    {
      s.Update(pieces[i]);
      ConcatStep(pieces, i);
    }
    assert pieces[..|pieces|] == pieces;
    out := s.Final();
  }

  /** However a message is cut into updates, the result is the SHA-256 of the whole. */
  method Sha256InPieces(pieces: seq<seq<byte>>) returns (out: seq<byte>)
    requires forall i :: 0 <= i < |pieces| ==> |pieces[i]| < 0x1_0000_0000
    ensures out == Sha256Of(Concat(pieces))
  {
    out := HashPieces(pieces, Compress);
  }

  ghost function Concat(pieces: seq<seq<byte>>): seq<byte>
  {
    if pieces == [] then [] else Concat(pieces[..|pieces| - 1]) + pieces[|pieces| - 1]
  }

  lemma ConcatStep(pieces: seq<seq<byte>>, i: nat)
    requires i < |pieces|
    ensures Concat(pieces[..i + 1]) == Concat(pieces[..i]) + pieces[i]
  {
    assert pieces[..i + 1][..i] == pieces[..i];
  }
}
