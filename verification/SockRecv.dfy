/** What a socket has received and not been read: a ring as large as the TCP window, and a
    chain of lwIP's own buffers behind it; and the same ring as a queue of datagrams. */
module SockRecv {
  import opened Bits

  // ----- The ring -----

  function RingAt(ring: seq<byte>, head: nat, i: nat): byte
    requires |ring| == 2920 && head < 2920 && i < 2920
  {
    ring[(head + i) % 2920]
  }

  /** The bytes of a ring, oldest first. */
  function RingBytes(ring: seq<byte>, head: nat, count: nat): (b: seq<byte>)
    requires |ring| == 2920 && head < 2920 && count <= 2920
    ensures |b| == count
  {
    seq<byte>(count, i requires 0 <= i < count => RingAt(ring, head, i))
  }

  /** Two copies, up to the end of the ring and from its start, append. */
  lemma PutAppends(ring: seq<byte>, next: seq<byte>, head: nat, count: nat, src: seq<byte>)
    requires |ring| == |next| == 2920 && head < 2920 && count + |src| <= 2920
    requires forall k :: 0 <= k < 2920 ==> next[k] == Stored(ring, (head + count) % 2920, src, k)
    ensures RingBytes(next, head, count + |src|) == RingBytes(ring, head, count) + src
  {
    forall i | 0 <= i < count + |src|
      ensures RingAt(next, head, i) == (RingBytes(ring, head, count) + src)[i]
    {
      SlotOf(head, count, i, |src|);
    }
  }

  /** What slot k holds after src was copied in from `tail` on, wrapping once. */
  function Stored(ring: seq<byte>, tail: nat, src: seq<byte>, k: nat): byte
    requires |ring| == 2920 && k < 2920
  {
    if tail <= k < tail + |src| then src[k - tail]
    else if k + 2920 < tail + |src| && tail <= k + 2920 then src[k + 2920 - tail]
    else ring[k]
  }

  lemma SlotOf(head: nat, count: nat, i: nat, n: nat)
    requires head < 2920 && count + n <= 2920 && i < count + n
    ensures var tail, k := (head + count) % 2920, (head + i) % 2920;
      if i >= count then (if tail <= k then k == tail + (i - count) && i - count < n else k + 2920 == tail + (i - count))
      else !(tail <= k < tail + n) && !(k + 2920 < tail + n)
  {
  }

  /** Taking n bytes leaves the rest. */
  lemma TakeLeaves(ring: seq<byte>, head: nat, count: nat, n: nat)
    requires |ring| == 2920 && head < 2920 && n <= count <= 2920
    ensures RingBytes(ring, (head + n) % 2920, count - n) == RingBytes(ring, head, count)[n..]
  {
    forall i | 0 <= i < count - n
      ensures RingAt(ring, (head + n) % 2920, i) == RingBytes(ring, head, count)[n..][i]
    {
      SlotAfter(head, n, i);
    }
  }

  lemma SlotAfter(head: nat, n: nat, i: nat)
    ensures ((head + n) % 2920 + i) % 2920 == (head + (n + i)) % 2920
  {
    var q, r := (head + n) / 2920, (head + n) % 2920;
    assert head + (n + i) == 2920 * q + (r + i);
    Turns(q, r + i);
  }

  lemma Turns(q: nat, x: nat)
    ensures (2920 * q + x) % 2920 == x % 2920
  {
    if q > 0 {
      Turns(q - 1, x);
      assert 2920 * q + x == 2920 * (q - 1) + x + 2920;
    }
  }

  /** The two copies out of the ring are its first n bytes. */
  lemma TakeIs(ring: seq<byte>, head: nat, count: nat, n: nat)
    requires |ring| == 2920 && head < 2920 && n <= count <= 2920
    ensures var first := if n < 2920 - head then n else 2920 - head;
      ring[head..head + first] + ring[..n - first] == RingBytes(ring, head, count)[..n]
  {
  }

  // ----- The socket -----

  /** lwIP's chain of buffers: none, or the bytes of those not yet read. */
  datatype Chain = Empty | Kept(bytes: seq<byte>)

  function ChainBytes(c: Chain): seq<byte>
  {
    if c.Empty? then [] else c.bytes
  }

  /** pbuf_free_header: the first n bytes dropped; a chain read to its end is no chain. */
  function FreeHeader(c: seq<byte>, n: nat): Chain
    requires n <= |c|
  {
    if n == |c| && n > 0 then Empty else Kept(c[n..])
  }

  lemma Joined(t: seq<byte>, r: seq<byte>, c: seq<byte>, p: seq<byte>)
    ensures (t + (r + c)) + p == t + (r + (c + p))
    ensures c == [] ==> (t + (r + c)) + p == t + ((r + p) + c)
  {
  }

  lemma Moved(t: seq<byte>, r: seq<byte>, c: seq<byte>, n: nat)
    ensures n <= |r| ==> t + (r + c) == (t + r[..n]) + (r[n..] + c)
    ensures r == [] && n <= |c| ==> t + (r + c) == (t + c[..n]) + (r + c[n..])
  {
  }

  lemma MovedAll(t: seq<byte>, r: seq<byte>, n: nat)
    requires n <= |r|
    ensures t + (r + []) == (t + r[..n]) + (r[n..] + [])
  {
  }

  class Socket {
    const ring: array?<byte>
    var rhead: nat
    var rcount: nat
    var rx: Chain
    var gone: bool
    var pcb: bool
    /** Everything that was delivered, everything handed out, and what tcp_recved was told. */
    ghost var delivered: seq<byte>
    ghost var taken: seq<byte>
    ghost var acked: nat

    ghost function InRing(): seq<byte>
      requires ring != null ==> ring.Length == 2920 && rhead < 2920 && rcount <= 2920
      reads this, ring
    {
      if ring == null then [] else RingBytes(ring[..], rhead, rcount)
    }

    /** What has arrived and not been read: the ring, then the chain. */
    ghost function Waiting(): seq<byte>
      requires ring != null ==> ring.Length == 2920 && rhead < 2920 && rcount <= 2920
      reads this, ring
    {
      InRing() + ChainBytes(rx)
    }

    ghost predicate Valid()
      reads this, ring
    {
      && (ring != null ==> ring.Length == 2920 && rhead < 2920 && rcount <= 2920)
      && (ring == null ==> rcount == 0)
      && delivered == taken + Waiting()
      && (pcb ==> acked == |taken|)
    }

    /** A chain that was made of buffers with something in them has something left in it. */
    predicate ChainWhole()
      reads this
    {
      rx.Kept? ==> rx.bytes != []
    }

    constructor (hasRing: bool)
      ensures Valid() && ChainWhole() && delivered == [] && !gone && pcb && rx.Empty? && (ring != null <==> hasRing)
      ensures ring != null ==> fresh(ring)
    {
      rhead, rcount, rx, gone, pcb := 0, 0, Empty, false, true;
      delivered, taken, acked := [], [], 0;
      if hasRing {
        ring := new byte[2920](i => 0);
      } else {
        ring := null;
      }
    }

    /** The two memcpys of ring_put. */
    method RingPut(src: seq<byte>)
      requires ring != null && ring.Length == 2920 && rhead < 2920 && rcount + |src| <= 2920
      modifies this`rcount, ring
      ensures rcount == old(rcount) + |src| && InRing() == old(InRing()) + src
    {
      var tail := (rhead + rcount) % 2920;
      var first := if |src| < 2920 - tail then |src| else 2920 - tail;
      ghost var was := ring[..];
      forall k | 0 <= k < first {
        ring[tail + k] := src[k];
      }
      forall k | 0 <= k < |src| - first {
        ring[k] := src[first + k];
      }
      PutAppends(was, ring[..], rhead, rcount, src);
      rcount := rcount + |src|;
    }

    /** ring_take, for n bytes that are there. */
    method RingTake(n: nat) returns (data: seq<byte>)
      requires ring != null && ring.Length == 2920 && rhead < 2920 && n <= rcount <= 2920
      modifies this`rhead, this`rcount
      ensures rhead < 2920 && rcount == old(rcount) - n && data == old(InRing())[..n] && InRing() == old(InRing())[n..]
    {
      var first := if n < 2920 - rhead then n else 2920 - rhead;
      data := ring[rhead..rhead + first] + ring[..n - first];
      TakeIs(ring[..], rhead, rcount, n);
      TakeLeaves(ring[..], rhead, rcount, n);
      rhead := (rhead + n) % 2920;
      rcount := rcount - n;
    }

    /** Bytes put in the ring for a socket of datagrams. */
    method Queue(src: seq<byte>)
      requires Valid() && ring != null && rx.Empty? && rcount + |src| <= 2920
      modifies this`rcount, this`delivered, ring
      ensures Valid() && rcount == old(rcount) + |src| && InRing() == old(InRing()) + src
    {
      Joined(taken, InRing(), ChainBytes(rx), src);
      delivered := delivered + src;
      RingPut(src);
    }

    method Unqueue(n: nat) returns (data: seq<byte>)
      requires Valid() && ring != null && rx.Empty? && n <= rcount
      modifies this`rhead, this`rcount, this`taken, this`acked
      ensures Valid() && rcount == old(rcount) - n && data == old(InRing())[..n] && InRing() == old(InRing())[n..]
    {
      ghost var r := InRing();
      MovedAll(taken, r, n);
      data := RingTake(n);
      assert InRing() == r[n..];
      taken := taken + data;
      acked := acked + n;
    }

    /** on_recv with a buffer; its length and the chain's are sixteen-bit numbers. With a
        ring, and lwIP keeping what is unread within its window, the chain is never used. */
    method OnRecv(p: seq<byte>)
      requires Valid() && pcb && |ChainBytes(rx)| + |p| < 0x1_0000
      modifies this`rcount, this`rx, this`delivered, ring
      ensures Valid() && delivered == old(delivered) + p
      ensures p != [] && old(ChainWhole()) ==> ChainWhole()
      ensures ring != null && old(rx).Empty? && |old(delivered)| + |p| - acked <= 2920 ==> rx.Empty?
    {
      Joined(taken, InRing(), ChainBytes(rx), p);
      delivered := delivered + p;
      if ring != null && rx.Empty? && |p| <= 2920 - rcount {
        RingPut(p);
        return;
      }
      rx := Kept(ChainBytes(rx) + p);
    }

    /** on_recv with no buffer: the peer closed. */
    method OnClosed()
      requires Valid()
      modifies this`gone
      ensures Valid() && gone && ChainWhole() == old(ChainWhole())
    {
      gone := true;
    }

    /** on_err: lwIP has freed its side. */
    method OnErr()
      requires Valid()
      modifies this`gone, this`pcb
      ensures Valid() && gone && !pcb && ChainWhole() == old(ChainWhole())
    {
      pcb, gone := false, true;
    }

    /** do_recv: the oldest bytes first, and -1 only when the peer is gone and there is nothing
        left. Whatever is handed out is the next of what was delivered. */
    method Recv(len: nat) returns (n: int, data: seq<byte>)
      requires Valid() && |ChainBytes(rx)| < 0x1_0000
      modifies this`rhead, this`rcount, this`rx, this`taken, this`acked
      ensures Valid() && delivered == old(delivered) && taken == old(taken) + data && (n >= 0 ==> n == |data|)
      ensures n <= len && (n < 0 ==> n == -1 && data == [])
      ensures old(ChainWhole()) ==> ChainWhole() && (n == -1 <==> gone && old(Waiting()) == [])
      ensures old(ChainWhole()) && len > 0 && old(Waiting()) != [] ==> n > 0
      ensures n == -1 ==> gone && Waiting() == []
    {
      if rcount > 0 {
        data := RecvRing(len);
        return |data|, data;
      }
      if rx.Empty? {
        if !gone {
          return 0, [];
        }
        return -1, [];
      }
      data := RecvChain(len);
      return |data|, data;
    }

    /** The ring first: whatever is in it arrived before anything in the chain. */
    method RecvRing(len: nat) returns (data: seq<byte>)
      requires Valid() && rcount > 0
      modifies this`rhead, this`rcount, this`taken, this`acked
      ensures Valid() && taken == old(taken) + data && |data| == if len < old(rcount) then len else old(rcount)
    {
      var k := if len < rcount then len else rcount;
      Moved(taken, InRing(), ChainBytes(rx), k);
      data := RingTake(k);
      taken := taken + data;
      if pcb {
        acked := acked + k;
      }
    }

    /** Then the chain, at most 65535 bytes of it at a time. */
    method RecvChain(len: nat) returns (data: seq<byte>)
      requires Valid() && rcount == 0 && rx.Kept? && |rx.bytes| < 0x1_0000
      modifies this`rx, this`taken, this`acked
      ensures Valid() && taken == old(taken) + data && |data| == if len < |old(rx).bytes| then len else |old(rx).bytes|
      ensures old(ChainWhole()) ==> ChainWhole()
    {
      var k := if len > 0xffff then 0xffff else len;
      if k > |rx.bytes| {
        k := |rx.bytes|;
      }
      Moved(taken, InRing(), rx.bytes, k);
      data := rx.bytes[..k];
      rx := FreeHeader(rx.bytes, k);
      taken := taken + data;
      if pcb {
        acked := acked + k;
      }
    }
  }

  // ----- Datagrams -----

  datatype Dgram = Dgram(from: seq<byte>, data: seq<byte>)

  /** A datagram as it lies in the ring: its length, who sent it, and its bytes. */
  function Record(d: Dgram): (b: seq<byte>)
    requires |d.from| == 20 && |d.data| < 0x1_0000
    ensures |b| == 22 + |d.data|
  {
    [|d.data| % 256, |d.data| / 256] + d.from + d.data
  }

  predicate Fits(q: seq<Dgram>)
  {
    forall i :: 0 <= i < |q| ==> |q[i].from| == 20 && |q[i].data| < 0x1_0000
  }

  function Records(q: seq<Dgram>): (b: seq<byte>)
    requires Fits(q)
  {
    if q == [] then [] else Record(q[0]) + Records(q[1..])
  }

  lemma {:induction false} RecordsAppend(q: seq<Dgram>, d: Dgram)
    requires Fits(q) && |d.from| == 20 && |d.data| < 0x1_0000
    ensures Fits(q + [d]) && Records(q + [d]) == Records(q) + Record(d)
  {
    if q == [] {
      assert [d][1..] == [];
    } else {
      RecordsAppend(q[1..], d);
      assert (q + [d])[1..] == q[1..] + [d] && (q + [d])[0] == q[0];
      Regroup(Record(q[0]), Records(q[1..]), Record(d));
    }
  }

  lemma Regroup(a: seq<byte>, b: seq<byte>, c: seq<byte>)
    ensures a + (b + c) == (a + b) + c
  {
  }

  /** A socket of datagrams: the ring holds whole records and nothing else. */
  class UdpSocket {
    const sock: Socket
    ghost var queue: seq<Dgram>
    ghost var dropped: nat

    ghost predicate Valid()
      reads this, sock, sock.ring
    {
      sock.Valid() && sock.ring != null && sock.rx.Empty? && Fits(queue) && sock.InRing() == Records(queue)
    }

    constructor ()
      ensures Valid() && queue == []
    {
      var s := new Socket(true);
      sock := s;
      queue, dropped := [], 0;
      new;
      assert sock.InRing() == [];
    }

    /** on_dgram: a datagram is queued whole, or dropped when it does not fit. */
    method OnDgram(from: seq<byte>, p: seq<byte>)
      requires Valid() && |from| == 20 && |p| < 0x1_0000
      modifies this, sock, sock.ring
      ensures Valid()
      ensures if 22 + |p| <= 2920 - old(sock.rcount) then queue == old(queue) + [Dgram(from, p)] && dropped == old(dropped)
              else queue == old(queue) && dropped == old(dropped) + 1
    {
      if 22 + |p| > 2920 - sock.rcount {
        dropped := dropped + 1;
        return;
      }
      var d := Dgram(from, p);
      RecordsAppend(queue, d);
      var head := [|p| % 256, |p| / 256] + from;
      ghost var was := sock.InRing();
      sock.Queue(head);
      sock.Queue(p);
      assert was + head + p == was + Record(d);
      queue := queue + [d];
    }

    /** do_recvfrom: the oldest datagram, cut to the room there is, with its sender; never a
        piece of one, and the rest of a long one is not the start of the next. */
    method RecvFrom(room: nat) returns (n: int, from: seq<byte>, data: seq<byte>)
      requires Valid()
      modifies this, sock
      ensures Valid() && dropped == old(dropped)
      ensures old(queue) == [] ==> n == 0 && queue == []
      ensures old(queue) != [] ==> queue == old(queue)[1..] && from == old(queue)[0].from && n == |data|
      ensures old(queue) != [] ==> data == old(queue)[0].data[..if |old(queue)[0].data| < room then |old(queue)[0].data| else room]
    {
      if sock.rcount < 22 {
        return 0, [], [];
      }
      from, data := TakeRecord(queue[0], Records(queue[1..]), room);
      n := |data|;
      queue := queue[1..];
    }

    /** One record out of the ring. */
    method TakeRecord(ghost d: Dgram, ghost rest: seq<byte>, room: nat) returns (from: seq<byte>, data: seq<byte>)
      requires sock.Valid() && sock.ring != null && sock.rx.Empty? && |d.from| == 20 && |d.data| < 0x1_0000
      requires sock.InRing() == Record(d) + rest
      modifies sock
      ensures sock.Valid() && sock.rx.Empty? && sock.InRing() == rest
      ensures from == d.from && data == d.data[..if |d.data| < room then |d.data| else room]
    {
      var head := sock.Unqueue(22);
      HeadOf(d, rest);
      var len := head[0] as nat + 256 * head[1] as nat;
      from := head[2..];
      var k := if len < room then len else room;
      DataOf(d, rest, k);
      data := sock.Unqueue(k);
      var skipped := sock.Unqueue(len - k);
    }
  }

  lemma HeadOf(d: Dgram, rest: seq<byte>)
    requires |d.from| == 20 && |d.data| < 0x1_0000
    ensures var h := (Record(d) + rest)[..22]; h[0] as nat + 256 * h[1] as nat == |d.data| && h[2..] == d.from
    ensures (Record(d) + rest)[22..] == d.data + rest
  {
  }

  lemma DataOf(d: Dgram, rest: seq<byte>, k: nat)
    requires k <= |d.data|
    ensures (d.data + rest)[..k] == d.data[..k] && (d.data + rest)[k..] == d.data[k..] + rest
    ensures (d.data[k..] + rest)[|d.data| - k..] == rest
  {
  }
}
