/** The stream cipher of RFC 8439 sections 2.1 to 2.4, and the code that computes it. */
module ChaCha20 {
  import opened Bits

  // ----- The definition of the standard -----

  /** One line of section 2.1: `a += b; d ^= a; d <<<= n`. */
  function MixLine(a: word, b: word, d: word, n: nat): (word, word)
    requires 0 < n < 32
  {
    (AddWord(a, b), Rotl(XorWord(d, AddWord(a, b)), n))
  }

  /** Two lines, one on a, b, d and one on c, d, b. */
  function MixHalf(v: (word, word, word, word), n: nat, n': nat): (word, word, word, word)
    requires 0 < n < 32 && 0 < n' < 32
  {
    var (a, d) := MixLine(v.0, v.1, v.3, n);
    var (c, b) := MixLine(v.2, d, v.1, n');
    (a, b, c, d)
  }

  function Mix(v: (word, word, word, word)): (word, word, word, word)
  {
    MixHalf(MixHalf(v, 16, 12), 8, 7)
  }

  type Quarter = q: (nat, nat, nat, nat) | q.0 < 16 && q.1 < 16 && q.2 < 16 && q.3 < 16
    witness (0, 0, 0, 0)

  /** Section 2.1.1, on four words of the state. */
  function QuarterRound(s: seq<word>, q: Quarter): (t: seq<word>)
    requires |s| == 16
    ensures |t| == 16
  {
    var (a, b, c, d) := Mix((s[q.0], s[q.1], s[q.2], s[q.3]));
    s[q.0 := a][q.1 := b][q.2 := c][q.3 := d]
  }

  /** The quarter rounds of one column round and one diagonal round. */
  function QuarterAt(n: nat): Quarter
    requires n < 8
  {
    match n
    case 0 => (0, 4, 8, 12) case 1 => (1, 5, 9, 13) case 2 => (2, 6, 10, 14) case 3 => (3, 7, 11, 15)
    case 4 => (0, 5, 10, 15) case 5 => (1, 6, 11, 12) case 6 => (2, 7, 8, 13) case _ => (3, 4, 9, 14)
  }

  /** The first n quarter rounds of a pass. */
  function Quarters(s: seq<word>, n: nat): (t: seq<word>)
    requires |s| == 16 && n <= 8
    ensures |t| == 16
    decreases n, s
  {
    if n == 0 then s else QuarterRound(Quarters(s, n - 1), QuarterAt(n - 1))
  }

  /** n column rounds, each followed by a diagonal round. */
  function DoubleRounds(n: nat, s: seq<word>): (t: seq<word>)
    requires |s| == 16
    ensures |t| == 16
    decreases n, s
  {
    if n == 0 then s else Quarters(DoubleRounds(n - 1, s), 8)
  }

  // ----- What a column round and a diagonal round are -----

  /** The state as a square of four by four: its columns, and its diagonals to the right. */
  function Column(s: seq<word>, i: nat): (word, word, word, word)
    requires |s| == 16 && i < 4
  {
    (s[i], s[4 + i], s[8 + i], s[12 + i])
  }

  function Diagonal(s: seq<word>, i: nat): (word, word, word, word)
    requires |s| == 16 && i < 4
  {
    (s[i], s[4 + (i + 1) % 4], s[8 + (i + 2) % 4], s[12 + (i + 3) % 4])
  }

  /** Section 2.3: every column of s mixed makes t, and every diagonal of t mixed makes u. */
  ghost predicate Doubled(s: seq<word>, t: seq<word>, u: seq<word>)
  {
    && |s| == |t| == |u| == 16
    && (forall i :: 0 <= i < 4 ==> Column(t, i) == Mix(Column(s, i)))
    && forall i :: 0 <= i < 4 ==> Diagonal(u, i) == Mix(Diagonal(t, i))
  }

  /** The eight quarter rounds of a pass are that. */
  lemma DoubleIs(s: seq<word>)
    requires |s| == 16
    ensures Doubled(s, Quarters(s, 4), Quarters(s, 8))
  {
    var m := 4;
    AfterColumns(s, m);
    AfterDiagonals(s, m, m);
  }

  lemma {:induction false} AfterColumns(s: seq<word>, n: nat)
    requires |s| == 16 && n <= 4
    ensures forall i :: 0 <= i < 4 ==> Column(Quarters(s, n), i) == if i < n then Mix(Column(s, i)) else Column(s, i)
  {
    if n > 0 {
      AfterColumns(s, n - 1);
      var t := Quarters(s, n - 1);
      OneColumn(t, n - 1, QuarterRound(t, QuarterAt(n - 1)));
    }
  }

  lemma OneColumn(t: seq<word>, n: nat, u: seq<word>)
    requires |t| == 16 && n < 4 && u == QuarterRound(t, QuarterAt(n))
    ensures forall i :: 0 <= i < 4 ==> Column(u, i) == if i == n then Mix(Column(t, i)) else Column(t, i)
  {
  }

  lemma {:induction false} AfterDiagonals(s: seq<word>, n: nat, m: nat)
    requires |s| == 16 && n <= 4 && m == 4
    ensures Turned(Quarters(s, m), Quarters(s, m + n), n)
  {
    if n > 0 {
      AfterDiagonals(s, n - 1, m);
      OneMore(s, m + (n - 1));
      OneTurned(Quarters(s, m), Quarters(s, m + (n - 1)), Quarters(s, m + n), n - 1);
    }
  }

  lemma OneMore(s: seq<word>, k: nat)
    requires |s| == 16 && k < 8
    ensures Quarters(s, k + 1) == QuarterRound(Quarters(s, k), QuarterAt(k))
  {
  }

  /** The first n diagonals are mixed, and the others as they were. */
  ghost predicate Turned(t: seq<word>, u: seq<word>, n: nat)
    requires |t| == |u| == 16
  {
    forall i :: 0 <= i < 4 ==> Diagonal(u, i) == if i < n then Mix(Diagonal(t, i)) else Diagonal(t, i)
  }

  lemma OneTurned(t: seq<word>, u: seq<word>, v: seq<word>, n: nat)
    requires |t| == |u| == 16 && n < 4 && Turned(t, u, n) && v == QuarterRound(u, QuarterAt(4 + n))
    ensures Turned(t, v, n + 1)
  {
    OneDiagonal(u, n, v);
    forall i | 0 <= i < 4
      ensures Diagonal(v, i) == if i < n + 1 then Mix(Diagonal(t, i)) else Diagonal(t, i)
    {
      assert Diagonal(u, i) == if i < n then Mix(Diagonal(t, i)) else Diagonal(t, i);
    }
  }

  lemma OneDiagonal(t: seq<word>, n: nat, u: seq<word>)
    requires |t| == 16 && n < 4 && u == QuarterRound(t, QuarterAt(4 + n))
    ensures forall i :: 0 <= i < 4 ==> Diagonal(u, i) == if i == n then Mix(Diagonal(t, n)) else Diagonal(t, i)
  {
    var q := QuarterAt(4 + n);
    var v := RoundPuts(t, q, u);
    DiagonalAt(t, n, q);
    PutDiagonal(t, n, q, v, u);
  }

  lemma RoundPuts(t: seq<word>, q: Quarter, u: seq<word>) returns (v: (word, word, word, word))
    requires |t| == 16 && u == QuarterRound(t, q)
    ensures v == Mix((t[q.0], t[q.1], t[q.2], t[q.3])) && u == t[q.0 := v.0][q.1 := v.1][q.2 := v.2][q.3 := v.3]
  {
    v := Mix((t[q.0], t[q.1], t[q.2], t[q.3]));
  }

  lemma DiagonalAt(t: seq<word>, n: nat, q: Quarter)
    requires |t| == 16 && n < 4 && q == QuarterAt(4 + n)
    ensures Diagonal(t, n) == (t[q.0], t[q.1], t[q.2], t[q.3])
  {
  }

  lemma PutDiagonal(t: seq<word>, n: nat, q: Quarter, v: (word, word, word, word), u: seq<word>)
    requires |t| == 16 && n < 4 && q == QuarterAt(4 + n) && u == t[q.0 := v.0][q.1 := v.1][q.2 := v.2][q.3 := v.3]
    ensures forall i :: 0 <= i < 4 ==> Diagonal(u, i) == if i == n then v else Diagonal(t, i)
  {
  }

  /** And nothing else is: a state has one result. */
  lemma OneResult(s: seq<word>, t: seq<word>, u: seq<word>, t': seq<word>, u': seq<word>)
    requires Doubled(s, t, u) && Doubled(s, t', u')
    ensures t == t' && u == u'
  {
    SameColumns(t, t');
    SameDiagonals(u, u');
  }

  lemma SameColumns(t: seq<word>, u: seq<word>)
    requires |t| == |u| == 16 && forall i :: 0 <= i < 4 ==> Column(t, i) == Column(u, i)
    ensures t == u
  {
    assert Column(t, 0) == Column(u, 0) && Column(t, 1) == Column(u, 1);
    assert Column(t, 2) == Column(u, 2) && Column(t, 3) == Column(u, 3);
  }

  lemma SameDiagonals(u: seq<word>, v: seq<word>)
    requires |u| == |v| == 16 && forall i :: 0 <= i < 4 ==> Diagonal(u, i) == Diagonal(v, i)
    ensures u == v
  {
    assert Diagonal(u, 0) == Diagonal(v, 0) && Diagonal(u, 1) == Diagonal(v, 1);
    assert Diagonal(u, 2) == Diagonal(v, 2) && Diagonal(u, 3) == Diagonal(v, 3);
  }

  /** States that each come from the one before in that way, through the one beside it. */
  ghost predicate Rounds(s: seq<seq<word>>, t: seq<seq<word>>)
  {
    |s| == |t| + 1 && forall r :: 0 <= r < |t| ==> Doubled(s[r], t[r], s[r + 1])
  }

  lemma {:induction false} RoundsAre(s: seq<seq<word>>, t: seq<seq<word>>, n: nat)
    requires Rounds(s, t) && n <= |t| && |s[0]| == 16
    ensures s[n] == DoubleRounds(n, s[0])
  {
    if n > 0 {
      RoundsAre(s, t, n - 1);
      DoubleIs(s[n - 1]);
      OneResult(s[n - 1], t[n - 1], s[n], Quarters(s[n - 1], 4), Quarters(s[n - 1], 8));
    }
  }

  /** The four bytes of a word, least significant first. */
  function Store(w: word): (b: seq<byte>)
    ensures |b| == 4
  {
    [w % 256, (w / 0x100) % 256, (w / 0x1_0000) % 256, (w / 0x100_0000) % 256]
  }

  /** n words read from b. */
  function WordsOf(b: seq<byte>, n: nat): (s: seq<word>)
    requires |b| == 4 * n
    ensures |s| == n
  {
    seq(n, i requires 0 <= i < n => Load32(b, 4 * i))
  }

  /** Section 2.3: constants, key, block counter, nonce. */
  function InitialState(key: seq<byte>, counter: word, nonce: seq<byte>): (s: seq<word>)
    requires |key| == 32 && |nonce| == 12
    ensures |s| == 16
  {
    [0x61707865, 0x3320646e, 0x79622d32, 0x6b206574] + WordsOf(key, 8) + [counter] + WordsOf(nonce, 3)
  }

  /** The first n words of x + s, in bytes. */
  function Serialize(x: seq<word>, s: seq<word>, n: nat): (b: seq<byte>)
    requires n <= |x| == |s|
    ensures |b| == 4 * n
    decreases n, x
  {
    if n == 0 then [] else Serialize(x, s, n - 1) + Store(AddWord(x[n - 1], s[n - 1]))
  }

  function Block(key: seq<byte>, counter: word, nonce: seq<byte>): (b: seq<byte>)
    requires |key| == 32 && |nonce| == 12
    ensures |b| == 64
  {
    var s := InitialState(key, counter, nonce);
    Serialize(DoubleRounds(10, s), s, 16)
  }

  function XorBytes(m: seq<byte>, k: seq<byte>): (c: seq<byte>)
    requires |m| <= |k|
    ensures |c| == |m|
  {
    seq(|m|, i requires 0 <= i < |m| => XorByte(m[i], k[i]))
  }

  /** Section 2.4: each 64 bytes of the message meet the key stream of their own block,
      the last one cut short. */
  function Crypt(key: seq<byte>, counter: word, nonce: seq<byte>, m: seq<byte>): (c: seq<byte>)
    requires |key| == 32 && |nonce| == 12
    ensures |c| == |m|
    decreases |m|
  {
    if m == [] then []
    else
      var n := if |m| < 64 then |m| else 64;
      XorBytes(m[..n], Block(key, counter, nonce)) + Crypt(key, AddWord(counter, 1), nonce, m[n..])
  }

  /** `block` stands for the blocks, which are looked up only where needed. */
  ghost predicate Blocks(block: word -> seq<byte>, key: seq<byte>, nonce: seq<byte>)
    requires |key| == 32 && |nonce| == 12
  {
    (forall n: word :: |block(n)| == 64) && forall n: word {:trigger Block(key, n, nonce)} :: block(n) == Block(key, n, nonce)
  }

  lemma {:induction false} CryptParts(block: word -> seq<byte>, key: seq<byte>, counter: word, nonce: seq<byte>, m: seq<byte>, n: nat)
    requires |key| == 32 && |nonce| == 12 && Blocks(block, key, nonce) && m != [] && n == (if |m| < 64 then |m| else 64)
    ensures Crypt(key, counter, nonce, m) == XorBytes(m[..n], block(counter)) + Crypt(key, AddWord(counter, 1), nonce, m[n..])
  {
    assert block(counter) == Block(key, counter, nonce);
  }

  lemma {:induction false} InPiece(m: seq<byte>, n: nat, k: seq<byte>, rest: seq<byte>, i: nat)
    requires n <= |m| && n <= |k| && i < |m| && |rest| == |m| - n
    ensures (XorBytes(m[..n], k) + rest)[i] == if i < n then Xor(m[i], k[i]) else rest[i - n]
  {
  }

  /** The text with the blocks from one number on. */
  ghost function With(block: word -> seq<byte>, counter: word, m: seq<byte>): (c: seq<byte>)
    requires forall n: word :: |block(n)| == 64
    ensures |c| == |m|
    decreases |m|
  {
    if m == [] then []
    else
      var n := if |m| < 64 then |m| else 64;
      XorBytes(m[..n], block(counter)) + With(block, AddWord(counter, 1), m[n..])
  }

  lemma {:induction false} CryptIsWith(block: word -> seq<byte>, key: seq<byte>, counter: word, nonce: seq<byte>, m: seq<byte>)
    requires |key| == 32 && |nonce| == 12 && Blocks(block, key, nonce)
    ensures Crypt(key, counter, nonce, m) == With(block, counter, m)
    decreases |m|
  {
    if m != [] {
      var n := if |m| < 64 then |m| else 64;
      CryptParts(block, key, counter, nonce, m, n);
      CryptIsWith(block, key, AddWord(counter, 1), nonce, m[n..]);
    }
  }

  lemma {:induction false} WithParts(block: word -> seq<byte>, counter: word, m: seq<byte>, n: nat, i: nat)
    requires (forall k: word :: |block(k)| == 64) && i < |m| && n == if |m| < 64 then |m| else 64
    ensures With(block, counter, m)[i] == if i < n then Xor(m[i], block(counter)[i]) else With(block, AddWord(counter, 1), m[n..])[i - n]
  {
    InPiece(m, n, block(counter), With(block, AddWord(counter, 1), m[n..]), i);
  }

  lemma {:induction false} WithAt(block: word -> seq<byte>, counter: word, m: seq<byte>, i: nat)
    requires (forall n: word :: |block(n)| == 64) && i < |m|
    ensures With(block, counter, m)[i] == Xor(m[i], block(U32(counter + i / 64))[i % 64])
    decreases |m|
  {
    WithParts(block, counter, m, if |m| < 64 then |m| else 64, i);
    if i >= 64 {
      WithAt(block, AddWord(counter, 1), m[64..], i - 64);
      OneBlockOn(counter, i);
    } else {
      FirstBlock(counter, i);
    }
  }

  lemma FirstBlock(counter: word, i: nat)
    requires i < 64
    ensures U32(counter + i / 64) == counter && i % 64 == i
  {
  }

  /** Byte i of the text is changed by byte i % 64 of the block that is i / 64 after the first. */
  lemma {:induction false} CryptAt(key: seq<byte>, counter: word, nonce: seq<byte>, m: seq<byte>, i: nat)
    requires |key| == 32 && |nonce| == 12 && i < |m|
    ensures Crypt(key, counter, nonce, m)[i] == Xor(m[i], Block(key, U32(counter + i / 64), nonce)[i % 64])
  {
    var block := (n: word) => Block(key, n, nonce);
    CryptIsWith(block, key, counter, nonce, m);
    WithAt(block, counter, m, i);
  }

  lemma OneBlockOn(counter: word, i: nat)
    requires i >= 64
    ensures U32(AddWord(counter, 1) + (i - 64) / 64) == U32(counter + i / 64) && (i - 64) % 64 == i % 64
  {
  }

  /** Encrypting twice gives the message back. */
  lemma {:induction false} CryptInvolution(key: seq<byte>, counter: word, nonce: seq<byte>, m: seq<byte>)
    requires |key| == 32 && |nonce| == 12
    ensures Crypt(key, counter, nonce, Crypt(key, counter, nonce, m)) == m
    decreases |m|
  {
    if m != [] {
      var n := if |m| < 64 then |m| else 64;
      var k := Block(key, counter, nonce);
      var c, rest := XorBytes(m[..n], k), Crypt(key, AddWord(counter, 1), nonce, m[n..]);
      var whole := Crypt(key, counter, nonce, m);
      assert whole == c + rest;
      assert whole[..n] == c && whole[n..] == rest;
      XorBytesTwice(m[..n], k);
      CryptInvolution(key, AddWord(counter, 1), nonce, m[n..]);
      assert m == m[..n] + m[n..];
    }
  }

  lemma XorBytesTwice(m: seq<byte>, k: seq<byte>)
    requires |m| <= |k|
    ensures XorBytes(XorBytes(m, k), k) == m
  {
    forall i | 0 <= i < |m|
      ensures XorBytes(XorBytes(m, k), k)[i] == m[i]
    {
      XorTwice(m[i], k[i]);
    }
  }

  // ----- The code -----

  /** One line of the macro QR, which rotates right where the standard rotates left. */
  method QRLine(a: word, b: word, d: word, n: nat) returns (a': word, d': word)
    requires n == 16 || n == 20 || n == 24 || n == 25
    ensures (a', d') == MixLine(a, b, d, 32 - n)
  {
    a' := AddWord(a, b);
    d' := XorWord(d, a');
    d' := Ror(d', n);
  }

  method QRHalf(v: (word, word, word, word), n: nat, n': nat) returns (w: (word, word, word, word))
    requires (n == 16 && n' == 20) || (n == 24 && n' == 25)
    ensures w == MixHalf(v, 32 - n, 32 - n')
  {
    var a, d := QRLine(v.0, v.1, v.3, n);
    var c, b := QRLine(v.2, d, v.1, n');
    w := (a, b, c, d);
  }

  method MixWords(v: (word, word, word, word)) returns (w: (word, word, word, word))
    ensures w == Mix(v)
  {
    w := QRHalf(v, 16, 20);
    w := QRHalf(w, 24, 25);
  }

  predicate Distinct(q: Quarter)
  {
    q.0 != q.1 && q.0 != q.2 && q.0 != q.3 && q.1 != q.2 && q.1 != q.3 && q.2 != q.3
  }

  lemma TableDistinct(n: nat)
    requires n < 8
    ensures Distinct(QuarterAt(n))
  {
  }

  method QR(x: array<word>, q: Quarter)
    requires x.Length == 16
    requires Distinct(q)
    modifies x
    ensures x[..] == QuarterRound(old(x[..]), q)
  {
    var (i, j, k, l) := q;
    var w := MixWords((x[i], x[j], x[k], x[l]));
    x[i] := w.0;
    x[j] := w.1;
    x[k] := w.2;
    x[l] := w.3;
  }

  /** The eight lines of the round loop, read from the table. */
  method DoubleRound(x: array<word>, ghost s: seq<word>)
    requires x.Length == 16 && x[..] == s
    modifies x
    ensures x[..] == Quarters(s, 8)
  {
    var n := 0;
    while n < 8
      invariant n <= 8 && x[..] == Quarters(s, n)
    {
      RoundLine(x, n, s);
      n := n + 1;
    }
  }

  method RoundLine(x: array<word>, n: nat, ghost s: seq<word>)
    requires x.Length == |s| == 16 && n < 8 && x[..] == Quarters(s, n)
    modifies x
    ensures x[..] == Quarters(s, n + 1)
  {
    TableDistinct(n);
    QR(x, QuarterAt(n));
  }

  /** The loop that reads the key's and the nonce's words. */
  method LoadWords(b: seq<byte>, n: nat) returns (s: seq<word>)
    requires |b| == 4 * n
    ensures s == WordsOf(b, n)
  {
    s := [];
    for i := 0 to n
      invariant s == WordsOf(b, n)[..i]
    {
      var w := LoadWord(b, 4 * i);
      s := s + [w];
    }
  }

  /** chacha_block */
  method ChachaBlock(key: seq<byte>, counter: word, nonce: seq<byte>) returns (out: seq<byte>)
    requires |key| == 32 && |nonce| == 12
    ensures out == Block(key, counter, nonce)
  {
    var k := LoadWords(key, 8);
    var n := LoadWords(nonce, 3);
    var s := [0x61707865, 0x3320646e, 0x79622d32, 0x6b206574] + k + [counter] + n;
    out := MixBlock(s);
  }

  method MixBlock(s: seq<word>) returns (out: seq<byte>)
    requires |s| == 16
    ensures out == Serialize(DoubleRounds(10, s), s, 16)
  {
    var x := new word[16](i requires 0 <= i < 16 => s[i]);
    assert x[..] == s;
    for r := 0 to 10
      invariant x[..] == DoubleRounds(r, s)
    {
      DoubleRound(x, x[..]);
    }
    out := SerializeWords(x[..], s);
  }

  method SerializeWords(x: seq<word>, s: seq<word>) returns (out: seq<byte>)
    requires |x| == |s| == 16
    ensures out == Serialize(x, s, 16)
  {
    out := [];
    for i := 0 to 16
      invariant out == Serialize(x, s, i)
    {
      var v := AddWord(x[i], s[i]);
      out := out + Store(v);
    }
  }

  /** chacha_xor: whole blocks of key stream, the last one cut short. */
  method ChachaXor(key: seq<byte>, counter: word, nonce: seq<byte>, input: seq<byte>, out: array<byte>)
    requires |key| == 32 && |nonce| == 12 && out.Length == |input|
    modifies out
    ensures out[..] == Crypt(key, counter, nonce, input)
  {
    var at, ctr := 0, counter;
    ghost var whole := Crypt(key, counter, nonce, input);
    while at < |input|
      invariant 0 <= at <= |input|
      invariant out[..at] + Crypt(key, ctr, nonce, input[at..]) == whole
    {
      at, ctr := XorNextBlock(key, ctr, nonce, input, out, at, whole);
    }
    assert out[..at] == out[..];
  }

  method XorNextBlock(key: seq<byte>, ctr: word, nonce: seq<byte>, input: seq<byte>, out: array<byte>, at: nat,
                      ghost whole: seq<byte>) returns (at': nat, ctr': word)
    requires |key| == 32 && |nonce| == 12 && at < |input| == out.Length
    requires out[..at] + Crypt(key, ctr, nonce, input[at..]) == whole
    modifies out
    ensures at < at' <= |input|
    ensures out[..at'] + Crypt(key, ctr', nonce, input[at'..]) == whole
  {
    ghost var done := out[..at];
    var block := ChachaBlock(key, ctr, nonce);
    var take := if |input| - at < 64 then |input| - at else 64;
    CryptBlock(key, ctr, nonce, input, at, take, block);
    XorBlock(input, out, at, take, block);
    at', ctr' := at + take, AddWord(ctr, 1);
    Regroup(done, XorBytes(input[at..at'], block), Crypt(key, ctr', nonce, input[at'..]));
  }

  lemma Regroup(a: seq<byte>, b: seq<byte>, c: seq<byte>)
    ensures (a + b) + c == a + (b + c)
  {
  }

  lemma {:induction false} CryptBlock(key: seq<byte>, ctr: word, nonce: seq<byte>, input: seq<byte>, at: nat, take: nat, block: seq<byte>)
    requires |key| == 32 && |nonce| == 12 && at < |input|
    requires block == Block(key, ctr, nonce)
    requires take == if |input| - at < 64 then |input| - at else 64
    ensures Crypt(key, ctr, nonce, input[at..])
         == XorBytes(input[at..at + take], block) + Crypt(key, AddWord(ctr, 1), nonce, input[at + take..])
  {
    assert input[at..][..take] == input[at..at + take] && input[at..][take..] == input[at + take..];
  }

  /** `out[i] = in[i] ^ block[i]` for the bytes this block covers. */
  method XorBlock(input: seq<byte>, out: array<byte>, at: nat, take: nat, block: seq<byte>)
    requires at + take <= |input| == out.Length && take <= |block|
    modifies out
    ensures out[..at + take] == old(out[..at]) + XorBytes(input[at..at + take], block)
  {
    for i := 0 to take
      invariant out[..at] == old(out[..at])
      invariant forall k :: 0 <= k < i ==> out[at + k] == XorByte(input[at + k], block[k])
    {
      out[at + i] := XorByte(input[at + i], block[i]);
    }
  }
}
