/** Hashing a byte stream in 64-byte blocks, for any function that takes a hash value
    and a block to the next hash value. */
module BlockHash {
  import opened Bits

  type Step<!H> = (H, seq<byte>) -> H

  /** The hash value after every whole block of m. */
  ghost function HashBlocks<H>(f: Step<H>, v: H, m: seq<byte>): H
    decreases |m|
  {
    if |m| < 64 then v else HashBlocks(f, f(v, m[..64]), m[64..])
  }

  lemma {:induction false} HashAppend<H>(f: Step<H>, v: H, m: seq<byte>, rest: seq<byte>)
    requires |m| % 64 == 0
    ensures HashBlocks(f, v, m + rest) == HashBlocks(f, HashBlocks(f, v, m), rest)
    decreases |m|
  {
    if m == [] {
      assert m + rest == rest;
    } else {
      assert (m + rest)[..64] == m[..64] && (m + rest)[64..] == m[64..] + rest;
      HashAppend(f, f(v, m[..64]), m[64..], rest);
    }
  }

  /** A hash value and the pending bytes stand for the message msg. */
  ghost predicate Stands<H>(f: Step<H>, iv: H, msg: seq<byte>, n: nat, h: H, pending: seq<byte>)
  {
    n == |pending| == |msg| % 64 && n <= |msg| && h == HashBlocks(f, iv, msg) && pending == msg[|msg| - n..]
  }

  /** Taking a piece of at most the room left: the hash value moves on exactly when the
      buffer fills. */
  lemma StandsMore<H>(f: Step<H>, iv: H, msg: seq<byte>, n: nat, h: H, pending: seq<byte>, piece: seq<byte>)
    requires Stands(f, iv, msg, n, h, pending) && n + |piece| <= 64
    ensures n + |piece| < 64 ==> Stands(f, iv, msg + piece, n + |piece|, h, pending + piece)
    ensures n + |piece| == 64 ==> Stands(f, iv, msg + piece, 0, f(h, pending + piece), [])
  {
    TailMore(msg, n, pending, piece);
    NextCount(|msg|, n, |piece|);
    PieceTaken(f, iv, msg, pending, piece, h);
  }

  lemma {:induction false} PieceTaken<H>(f: Step<H>, iv: H, msg: seq<byte>, pending: seq<byte>, piece: seq<byte>, h: H)
    requires |pending| == |msg| % 64 && pending == msg[|msg| - |pending|..]
    requires |pending| + |piece| <= 64 && h == HashBlocks(f, iv, msg)
    ensures HashBlocks(f, iv, msg + piece) == if |pending| + |piece| < 64 then h else f(h, pending + piece)
  {
    var whole, next := msg[..|msg| - |pending|], pending + piece;
    WholePart(msg, |pending|);
    PieceParts(msg, whole, pending, piece);
    HashAppend(f, iv, whole, pending);
    HashAppend(f, iv, whole, next);
    OneBlock(f, h, pending);
    OneBlock(f, h, next);
  }

  lemma PieceParts(msg: seq<byte>, whole: seq<byte>, pending: seq<byte>, piece: seq<byte>)
    requires |pending| <= |msg| && whole == msg[..|msg| - |pending|] && pending == msg[|msg| - |pending|..]
    ensures msg == whole + pending && msg + piece == whole + (pending + piece)
  {
  }

  lemma TailMore(msg: seq<byte>, n: nat, pending: seq<byte>, piece: seq<byte>)
    requires n == |pending| <= |msg| && pending == msg[|msg| - n..]
    ensures var m, k := msg + piece, n + |piece|;
      |m| == |msg| + |piece| && m[|m| - k..] == pending + piece && m[|m|..] == []
  {
    var whole := msg[..|msg| - n];
    assert msg + piece == whole + (pending + piece);
    TailOf(whole, pending + piece);
  }

  lemma TailOf(a: seq<byte>, b: seq<byte>)
    ensures (a + b)[|a + b| - |b|..] == b
    ensures (a + b)[|a + b|..] == []
  {
  }

  lemma NextCount(len: nat, n: nat, take: nat)
    requires n == len % 64 && n + take <= 64
    ensures (len + take) % 64 == if n + take == 64 then 0 else n + take
  {
  }

  lemma WholePart(msg: seq<byte>, n: nat)
    requires n == |msg| % 64
    ensures |msg[..|msg| - n]| % 64 == 0
  {
  }

  lemma {:induction false} OneBlock<H>(f: Step<H>, h: H, m: seq<byte>)
    requires |m| <= 64
    ensures HashBlocks(f, h, m) == if |m| < 64 then h else f(h, m)
  {
    if |m| == 64 {
      assert m[..64] == m && m[64..] == [];
    }
  }
}
