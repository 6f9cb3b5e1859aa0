/** ChaCha20-Poly1305 as in RFC 8439 section 2.8, with no additional data: what
    kernel/crypto.c seals the key store with. */
module Aead {
  import opened Bits
  import ChaCha20
  import Poly1305

  datatype Opened = Refused | Plain(text: seq<byte>)

  datatype Sealed = Sealed(cipher: seq<byte>, tag: seq<byte>)

  // ----- The definition of the standard -----

  function Pad16(n: nat): (z: seq<byte>)
    ensures (n + |z|) % 16 == 0 && |z| < 16
  {
    Zeros((16 - n % 16) % 16)
  }

  /** The text that is authenticated: no additional data and no padding for it, the
      ciphertext padded to a whole block, and the two lengths in eight bytes each. */
  function MacText(cipher: seq<byte>): (m: seq<byte>)
    ensures |m| % 16 == 0
  {
    SixteenMore(cipher + Pad16(|cipher|), Sizes(|cipher|));
    cipher + Pad16(|cipher|) + Sizes(|cipher|)
  }

  /** Nothing and the length of the ciphertext. */
  function Sizes(n: nat): (b: seq<byte>)
    ensures |b| == 16
  {
    Poly1305.ToLE(8, 0) + Poly1305.ToLE(8, n)
  }

  lemma SixteenMore(text: seq<byte>, sizes: seq<byte>)
    requires |text| % 16 == 0 && |sizes| == 16
    ensures |text + sizes| % 16 == 0
  {
  }

  /** Section 2.6: the one-time key is the first half of block number zero. */
  function OneTimeKey(key: seq<byte>, nonce: seq<byte>): (k: seq<byte>)
    requires |key| == 32 && |nonce| == 12
    ensures |k| == 32
  {
    ChaCha20.Block(key, 0, nonce)[..32]
  }

  function TagOf(key: seq<byte>, nonce: seq<byte>, cipher: seq<byte>): seq<byte>
    requires |key| == 32 && |nonce| == 12
  {
    Poly1305.Tag(OneTimeKey(key, nonce), MacText(cipher))
  }

  function Seal(key: seq<byte>, nonce: seq<byte>, plain: seq<byte>): Sealed
    requires |key| == 32 && |nonce| == 12
  {
    var cipher := ChaCha20.Crypt(key, 1, nonce, plain);
    Sealed(cipher, TagOf(key, nonce, cipher))
  }

  function Unseal(key: seq<byte>, nonce: seq<byte>, s: Sealed): Opened
    requires |key| == 32 && |nonce| == 12
  {
    if s.tag == TagOf(key, nonce, s.cipher) then Plain(ChaCha20.Crypt(key, 1, nonce, s.cipher)) else Refused
  }

  /** Each byte of the ciphertext is the plaintext's with a byte of the blocks from number one on;
      none of them is block zero, which the one-time key comes from, exactly as long as the text
      is no longer than the blocks there are. */
  lemma {:induction false} CipherAt(key: seq<byte>, nonce: seq<byte>, plain: seq<byte>, i: nat)
    requires |key| == 32 && |nonce| == 12 && i < |plain|
    ensures var number := U32(1 + i / 64);
      Seal(key, nonce, plain).cipher[i] == Xor(plain[i], ChaCha20.Block(key, number, nonce)[i % 64])
      && (i < 64 * 0xffff_ffff ==> number == 1 + i / 64)
  {
    ChaCha20.CryptAt(key, 1, nonce, plain, i);
  }

  lemma {:induction false} BlockZeroApart(plain: nat)
    ensures plain <= 64 * 0xffff_ffff <==> forall i :: 0 <= i < plain ==> U32(1 + i / 64) != 0
  {
    if plain > 64 * 0xffff_ffff {
      var i := 64 * 0xffff_ffff;
      assert U32(1 + i / 64) == 0;
    }
  }

  /** Unsealing under the same key and nonce gives back what was sealed. */
  lemma UnsealSeal(key: seq<byte>, nonce: seq<byte>, plain: seq<byte>)
    requires |key| == 32 && |nonce| == 12
    ensures Unseal(key, nonce, Seal(key, nonce, plain)) == Plain(plain)
  {
    ChaCha20.CryptInvolution(key, 1, nonce, plain);
  }

  /** Whatever unseals is exactly what sealing its plain text makes. */
  lemma SealUnseal(key: seq<byte>, nonce: seq<byte>, s: Sealed)
    requires |key| == 32 && |nonce| == 12
    ensures var o := Unseal(key, nonce, s); o.Plain? ==> Seal(key, nonce, o.text) == s
  {
    ChaCha20.CryptInvolution(key, 1, nonce, s.cipher);
  }

  // ----- The code -----

  /** tag_of: the ciphertext's whole blocks, its end padded with zeros, and the block of
      lengths, fed to the authenticator one after another. */
  method ComputeTag(key: seq<byte>, nonce: seq<byte>, cipher: seq<byte>) returns (tag: seq<byte>)
    requires |key| == 32 && |nonce| == 12
    ensures tag == TagOf(key, nonce, cipher)
  {
    var otk := ChaCha20.ChachaBlock(key, 0, nonce);
    tag := MacOf(otk[..32], cipher);
  }

  method MacOf(otk: seq<byte>, cipher: seq<byte>) returns (tag: seq<byte>)
    requires |otk| == 32
    ensures tag == Poly1305.Tag(otk, MacText(cipher))
  {
    var p := new Poly1305.Poly(otk);
    CipherBlocks(p, cipher, Poly1305.RValue(otk));
    TextBlocks(p, cipher, Poly1305.RValue(otk));
    tag := FinishWhole(p, otk, MacText(cipher));
  }

  method TextBlocks(p: Poly1305.Poly, cipher: seq<byte>, ghost r: nat)
    requires p.Valid() && r == Poly1305.Val(p.r)
    requires p.Acc() == Poly1305.BlocksAcc(0, r, cipher + Pad16(|cipher|), 0x1_0000_0000_0000_0000_0000_0000_0000_0000)
    modifies p`h
    ensures p.Valid()
    ensures p.Acc() == Poly1305.BlocksAcc(0, r, MacText(cipher), 0x1_0000_0000_0000_0000_0000_0000_0000_0000)
  {
    ghost var done := cipher + Pad16(|cipher|);
    var lengths := LengthBlock(|cipher|);
    p.Blocks(lengths, false);
    Poly1305.BlocksAppend(0, r, done, lengths, 0x1_0000_0000_0000_0000_0000_0000_0000_0000);
  }

  method FinishWhole(p: Poly1305.Poly, ghost otk: seq<byte>, ghost m: seq<byte>) returns (tag: seq<byte>)
    requires |otk| == 32 && |m| % 16 == 0 && p.Valid()
    requires Poly1305.Val(p.r) == Poly1305.RValue(otk) && p.S() == Poly1305.LE(otk[16..])
    requires p.Acc() == Poly1305.BlocksAcc(0, Poly1305.RValue(otk), m, 0x1_0000_0000_0000_0000_0000_0000_0000_0000)
    modifies p
    ensures tag == Poly1305.Tag(otk, m)
  {
    ghost var q;
    tag, q := p.Finish([]);
    WholeText(otk, m, tag, q);
  }

  method CipherBlocks(p: Poly1305.Poly, cipher: seq<byte>, ghost r: nat)
    requires p.Valid() && p.Acc() == 0 && r == Poly1305.Val(p.r)
    modifies p`h
    ensures p.Valid()
    ensures p.Acc() == Poly1305.BlocksAcc(0, r, cipher + Pad16(|cipher|), 0x1_0000_0000_0000_0000_0000_0000_0000_0000)
  {
    var full := |cipher| - |cipher| % 16;
    Poly1305.WholeBlocks(|cipher|);
    p.Blocks(cipher[..full], false);
    ghost var done := cipher[..full];
    if |cipher| % 16 != 0 {
      var block := cipher[full..] + Zeros(16 - |cipher| % 16);
      p.Blocks(block, false);
      Poly1305.BlocksAppend(0, r, done, block, 0x1_0000_0000_0000_0000_0000_0000_0000_0000);
      done := done + block;
    }
    PaddedCipher(cipher, full, done);
  }

  lemma PaddedCipher(cipher: seq<byte>, full: nat, done: seq<byte>)
    requires full == |cipher| - |cipher| % 16
    requires done == if |cipher| % 16 != 0 then cipher[..full] + (cipher[full..] + Zeros(16 - |cipher| % 16)) else cipher[..full]
    ensures done == cipher + Pad16(|cipher|)
  {
    if |cipher| % 16 == 0 {
      assert Pad16(|cipher|) == [] && cipher[..full] == cipher;
    } else {
      TwoParts(cipher, full, Zeros(16 - |cipher| % 16));
    }
  }

  lemma TwoParts(c: seq<byte>, k: nat, z: seq<byte>)
    requires k <= |c|
    ensures c[..k] + (c[k..] + z) == c + z
  {
  }

  lemma {:induction false} WholeText(otk: seq<byte>, m: seq<byte>, tag: seq<byte>, q: nat)
    requires |otk| == 32 && |m| % 16 == 0 && |tag| == 16
    requires Poly1305.LE(tag) + q * 0x1_0000_0000_0000_0000_0000_0000_0000_0000
          == Poly1305.PolyAcc(Poly1305.BlocksAcc(0, Poly1305.RValue(otk), m, 0x1_0000_0000_0000_0000_0000_0000_0000_0000), Poly1305.RValue(otk), [])
              + Poly1305.LE(otk[16..])
    ensures tag == Poly1305.Tag(otk, m)
  {
    Poly1305.BlocksArePoly(0, Poly1305.RValue(otk), m, []);
    assert m + [] == m;
    Poly1305.TagIs(otk, m, tag, q);
  }

  /** Sixteen zero bytes, then `lengths[8 + i] = (uint8_t)(len >> (8 * i))`. */
  method LengthBlock(n: nat) returns (block: seq<byte>)
    ensures block == Poly1305.ToLE(8, 0) + Poly1305.ToLE(8, n)
  {
    var lengths := new byte[16](i => 0);
    for i := 0 to 8
      invariant lengths[..8] == Zeros(8)
      invariant forall k :: 0 <= k < i ==> lengths[8 + k] == (n / Pow2(8 * k)) % 256
    {
      lengths[8 + i] := (n / Pow2(8 * i)) % 256;
    }
    block := lengths[..];
    forall k | 0 <= k < 8
      ensures Poly1305.ToLE(8, 0)[k] == 0 && Poly1305.ToLE(8, n)[k] == (n / Pow2(8 * k)) % 256
    {
      ByteAt(8, n, k);
      ByteAt(8, 0, k);
    }
    assert block[..8] == Poly1305.ToLE(8, 0);
    assert block[8..] == Poly1305.ToLE(8, n);
  }

  lemma {:induction false} ByteAt(n: nat, x: nat, k: nat)
    requires k < n
    ensures Poly1305.ToLE(n, x)[k] == (x / Pow2(8 * k)) % 256
  {
    if k > 0 {
      ByteAt(n - 1, x / 256, k - 1);
      DivideTwice(x, k - 1);
    } else {
      assert Pow2(0) == 1;
    }
  }

  /** ubiqos_seal */
  method SealBytes(key: seq<byte>, nonce: seq<byte>, plain: seq<byte>, cipher: array<byte>) returns (tag: seq<byte>)
    requires |key| == 32 && |nonce| == 12 && cipher.Length == |plain|
    modifies cipher
    ensures Sealed(cipher[..], tag) == Seal(key, nonce, plain)
  {
    ChaCha20.ChachaXor(key, 1, nonce, plain, cipher);
    tag := ComputeTag(key, nonce, cipher[..]);
  }

  /** ubiqos_unseal: the output is written only when every byte of the tag agrees. */
  method UnsealBytes(key: seq<byte>, nonce: seq<byte>, cipher: seq<byte>, plain: array<byte>, tag: seq<byte>)
    returns (ok: bool)
    requires |key| == 32 && |nonce| == 12 && plain.Length == |cipher| && |tag| == 16
    modifies plain
    ensures ok <==> Unseal(key, nonce, Sealed(cipher, tag)).Plain?
    ensures ok ==> Unseal(key, nonce, Sealed(cipher, tag)) == Plain(plain[..])
    ensures !ok ==> plain[..] == old(plain[..])
  {
    var want := ComputeTag(key, nonce, cipher);
    var diff := Difference(want, tag);
    if diff != 0 {
      return false;
    }
    ChaCha20.ChachaXor(key, 1, nonce, cipher, plain);
    return true;
  }

  /** The comparison that looks at every byte. */
  method Difference(want: seq<byte>, tag: seq<byte>) returns (diff: nat)
    requires |want| == |tag| == 16
    ensures diff == 0 <==> want == tag
  {
    diff := 0;
    for i := 0 to 16
      invariant diff == 0 <==> want[..i] == tag[..i]
    {
      var x := XorByte(want[i], tag[i]);
      OrZero(diff, x);
      if x == 0 {
        XorZero(want[i], tag[i]);
      }
      XorSelf(want[i]);
      diff := Or(diff, x);
    }
  }
}
