/** HMAC-SHA256 (RFC 2104) and the single block of PBKDF2 (RFC 8018 section 5.2) that
    the key store derives its keys with. */
module Hmac {
  import opened Bits
  import opened BlockHash
  import opened Sha256

  // ----- The definitions, over the block function of the hash -----

  function XorAll(b: seq<byte>, x: byte): (c: seq<byte>)
    ensures |c| == |b|
  {
    seq(|b|, i requires 0 <= i < |b| => XorByte(b[i], x))
  }

  function XorBoth(a: seq<byte>, b: seq<byte>): (c: seq<byte>)
    requires |a| == |b|
    ensures |c| == |a|
  {
    seq(|a|, i requires 0 <= i < |a| => XorByte(a[i], b[i]))
  }

  /** The key filled up to a block, or its digest when it is longer than one. */
  ghost function BlockKey(f: Step<Eight>, key: seq<byte>): (k: seq<byte>)
    ensures |k| == 64
  {
    if |key| > 64 then Digest(f, key) + Zeros(32) else key + Zeros(64 - |key|)
  }

  ghost function Mac(f: Step<Eight>, key: seq<byte>, text: seq<byte>): (d: seq<byte>)
    ensures |d| == 32
  {
    Digest(f, XorAll(BlockKey(f, key), 0x5c) + Digest(f, XorAll(BlockKey(f, key), 0x36) + text))
  }

  /** U_i of section 5.2, counted from 1. */
  ghost function U(f: Step<Eight>, pass: seq<byte>, salt: seq<byte>, i: nat): (d: seq<byte>)
    requires i > 0
    ensures |d| == 32
  {
    if i == 1 then Mac(f, pass, salt + [0, 0, 0, 1]) else Mac(f, pass, U(f, pass, salt, i - 1))
  }

  /** U_1 xor ... xor U_c, the first block of the derived key. */
  ghost function DerivedBlock(f: Step<Eight>, pass: seq<byte>, salt: seq<byte>, c: nat): (d: seq<byte>)
    requires c > 0
    ensures |d| == 32
  {
    if c == 1 then U(f, pass, salt, 1) else XorBoth(DerivedBlock(f, pass, salt, c - 1), U(f, pass, salt, c))
  }

  // ----- The code -----

  /** hmac: the message may come in two parts. */
  method HmacOf(key: seq<byte>, msg: seq<byte>, msg2: seq<byte>, ghost f: Step<Eight>) returns (out: seq<byte>)
    requires |key| < 0x1_0000_0000 && |msg| < 0x1_0000_0000 && |msg2| < 0x1_0000_0000 && IsCompress(f)
    ensures out == Mac(f, key, msg + msg2)
  {
    var k := KeyBlock(key, f);
    var inner := HashAfter(k, 0x36, msg, msg2, f);
    out := HashAfter(k, 0x5c, inner, [], f);
    assert inner + [] == inner;
  }

  method KeyBlock(key: seq<byte>, ghost f: Step<Eight>) returns (k: seq<byte>)
    requires |key| < 0x1_0000_0000 && IsCompress(f)
    ensures k == BlockKey(f, key)
  {
    if |key| > 64 {
      var d := Hash(key, f);
      k := d + Zeros(32);
    } else {
      k := key + Zeros(64 - |key|);
    }
  }

  /** One of the two hashes: the key block under a mask, then the message. */
  method HashAfter(k: seq<byte>, mask: byte, msg: seq<byte>, msg2: seq<byte>, ghost f: Step<Eight>) returns (out: seq<byte>)
    requires |k| == 64 && |msg| < 0x1_0000_0000 && |msg2| < 0x1_0000_0000 && IsCompress(f)
    ensures out == Digest(f, XorAll(k, mask) + (msg + msg2))
  {
    var pad := MaskKey(k, mask);
    var s := new Stream(f);
    s.Update(pad);
    s.Update(msg);
    FeedSecond(s, msg2);
    Regroup(pad, msg, msg2);
    out := s.Final();
  }

  /** `if (mlen2) update(msg2)` */
  method FeedSecond(s: Stream, msg2: seq<byte>)
    requires s.Valid() && |msg2| < 0x1_0000_0000
    modifies s, s.buf
    ensures s.Valid() && s.msg == old(s.msg) + msg2
  {
    if |msg2| != 0 {
      s.Update(msg2);
    }
  }

  lemma Regroup(a: seq<byte>, b: seq<byte>, c: seq<byte>)
    ensures [] + a + b + c == a + (b + c)
  {
  }

  method MaskKey(k: seq<byte>, mask: byte) returns (pad: seq<byte>)
    ensures pad == XorAll(k, mask)
  {
    pad := [];
    for i := 0 to |k|
      invariant pad == XorAll(k, mask)[..i]
    {
      pad := pad + [XorByte(k[i], mask)];
    }
  }

  /** ubiqos_pbkdf2_sha256. No iterations at all does the work of one. */
  method Pbkdf2(pass: seq<byte>, salt: seq<byte>, iterations: nat, ghost f: Step<Eight>)
    returns (out: seq<byte>)
    requires IsCompress(f)
    requires |pass| < 0x1_0000_0000 && |salt| < 0x1_0000_0000
    ensures out == DerivedBlock(f, pass, salt, if iterations == 0 then 1 else iterations)
  {
    var u := HmacOf(pass, salt, [0, 0, 0, 1], f);
    FirstTerm(f, pass, salt, u);
    out := Fold(pass, u, if iterations == 0 then 1 else iterations, f, salt);
  }

  lemma {:induction false} FirstTerm(f: Step<Eight>, pass: seq<byte>, salt: seq<byte>, u: seq<byte>)
    requires u == Mac(f, pass, salt + [0, 0, 0, 1])
    ensures u == U(f, pass, salt, 1) && u == DerivedBlock(f, pass, salt, 1)
  {
  }

  method Fold(pass: seq<byte>, u0: seq<byte>, iterations: nat, ghost f: Step<Eight>,
              ghost salt: seq<byte>) returns (out: seq<byte>)
    requires IsCompress(f) && |pass| < 0x1_0000_0000 && iterations > 0
    requires u0 == U(f, pass, salt, 1) && u0 == DerivedBlock(f, pass, salt, 1)
    ensures out == DerivedBlock(f, pass, salt, iterations)
  {
    var u, acc, i := u0, u0, 1;
    while i < iterations
      invariant 1 <= i <= iterations
      invariant u == U(f, pass, salt, i) && acc == DerivedBlock(f, pass, salt, i)
    {
      u, acc := Turn(pass, u, acc, f, salt, i);
      i := i + 1;
    }
    out := acc;
  }

  method Turn(pass: seq<byte>, u: seq<byte>, acc: seq<byte>, ghost f: Step<Eight>,
              ghost salt: seq<byte>, ghost i: nat) returns (u': seq<byte>, acc': seq<byte>)
    requires IsCompress(f) && |pass| < 0x1_0000_0000 && i > 0
    requires u == U(f, pass, salt, i) && acc == DerivedBlock(f, pass, salt, i)
    ensures u' == U(f, pass, salt, i + 1) && acc' == DerivedBlock(f, pass, salt, i + 1)
  {
    u' := HmacOf(pass, u, [], f);
    acc' := Accumulate(acc, u');
    NextTerm(f, pass, salt, i + 1, u', acc');
  }

  lemma NextTerm(f: Step<Eight>, pass: seq<byte>, salt: seq<byte>, i: nat, u: seq<byte>, acc: seq<byte>)
    requires i > 1 && u == Mac(f, pass, U(f, pass, salt, i - 1) + [])
    requires |u| == 32 && acc == XorBoth(DerivedBlock(f, pass, salt, i - 1), u)
    ensures u == U(f, pass, salt, i) && acc == DerivedBlock(f, pass, salt, i)
  {
    assert U(f, pass, salt, i - 1) + [] == U(f, pass, salt, i - 1);
  }

  method Accumulate(acc: seq<byte>, u: seq<byte>) returns (r: seq<byte>)
    requires |acc| == |u|
    ensures r == XorBoth(acc, u)
  {
    r := [];
    for k := 0 to |acc|
      invariant r == XorBoth(acc, u)[..k]
    {
      r := r + [XorByte(acc[k], u[k])];
    }
  }

  // ----- Over SHA-256 itself -----

  /** ubiqos_hmac_sha256 */
  method HmacSha256(key: seq<byte>, msg: seq<byte>, msg2: seq<byte>) returns (out: seq<byte>)
    requires |key| < 0x1_0000_0000 && |msg| < 0x1_0000_0000 && |msg2| < 0x1_0000_0000
    ensures out == Mac(Compress, key, msg + msg2)
  {
    out := HmacOf(key, msg, msg2, Compress);
  }

  /** ubiqos_pbkdf2_sha256 */
  method Pbkdf2Sha256(pass: seq<byte>, salt: seq<byte>, iterations: nat) returns (out: seq<byte>)
    requires |pass| < 0x1_0000_0000 && |salt| < 0x1_0000_0000
    ensures out == DerivedBlock(Compress, pass, salt, if iterations == 0 then 1 else iterations)
  {
    out := Pbkdf2(pass, salt, iterations, Compress);
  }
}
