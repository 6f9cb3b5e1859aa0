/** What pipes are for, on the bytes: what is written at one end is read at the other, over
    dup and over inherited rows, and the last writer's end is the end of the file. */
module Pipes {
  import opened Bits
  import opened Descriptors
  import opened IoManager

  type Place = (int, int)

  /** Exactly these descriptors read the ring, and exactly these write it. */
  ghost predicate Ends(w: World, k: nat, readers: set<Place>, writers: set<Place>)
  {
    && k < |w.rings|
    && (forall p, i :: HasPath(w, p, i) ==> ((p, i) in readers <==> Holds(w.rows[p][i], Reads(k))))
    && (forall p, i :: HasPath(w, p, i) ==> ((p, i) in writers <==> Holds(w.rows[p][i], Writes(k))))
    && (forall p, i :: (p, i) in readers + writers ==> HasPath(w, p, i))
  }

  /** With those ends: somebody writes exactly if the set of writers is not empty. */
  lemma WriterTotal(w: World, k: nat, readers: set<Place>, writers: set<Place>)
    requires Ends(w, k, readers, writers)
    ensures Total(w.rows, Writes(k)) == 0 <==> writers == {}
    ensures Total(w.rows, Reads(k)) == 0 <==> readers == {}
  {
    TotalZero(w.rows, Writes(k));
    TotalZero(w.rows, Reads(k));
    if writers != {} {
      var a :| a in writers;
      assert HasPath(w, a.0, a.1) && Holds(w.rows[a.0][a.1], Writes(k));
    }
    if readers != {} {
      var a :| a in readers;
      assert HasPath(w, a.0, a.1) && Holds(w.rows[a.0][a.1], Reads(k));
    }
  }

  /** One end only: it reads, or it writes, ring k. */
  predicate IsEnd(s: Slot, k: nat, write: bool)
  {
    s.pipe == k && s.back < 0 && s.write == write
  }

  // ----- What the calls do to the ends -----

  ghost function If(b: bool, x: Place): set<Place>
  {
    if b then {x} else {}
  }

  /** Two descriptors replaced, where nobody named the ring: its ends are theirs. */
  lemma TwoSet(w: World, u: World, p: nat, i: nat, j: nat, s: Slot, t: Slot, k: nat)
    requires p < |w.rows| && i < j < |w.rows[p]| && RingFree(w.rows, k) && k < |u.rings|
    requires u.rows == Set(Set(w.rows, p, i, s), p, j, t)
    ensures Ends(u, k, If(Holds(s, Reads(k)), (p, i)) + If(Holds(t, Reads(k)), (p, j)),
                 If(Holds(s, Writes(k)), (p, i)) + If(Holds(t, Writes(k)), (p, j)))
  {
    TotalZero(w.rows, Reads(k));
    TotalZero(w.rows, Writes(k));
  }

  /** A new pipe: the lower number reads and the higher writes, and nothing waits. */
  lemma PipeMade(w: World, pid: int) returns (k: nat, fd0: nat, fd1: nat)
    requires WorldOk(w) && Apply(w, Pipe(pid)).1 == 0
    ensures HasPid(w, pid) && fd0 == FirstFree(w.rows[pid], 0) && fd0 < fd1 < |w.rows[pid]| && fd1 == FirstFree(w.rows[pid], fd0 + 1)
    ensures var u := Apply(w, Pipe(pid)).0;
      Ends(u, k, {(pid, fd0)}, {(pid, fd1)}) && u.rings[k] == [] && |u.rows| == |w.rows|
      && |u.rows[pid]| == |w.rows[pid]| && IsEnd(u.rows[pid][fd0], k, false) && IsEnd(u.rows[pid][fd1], k, true)
      && forall p :: 0 <= p < |w.rows| && p != pid ==> u.rows[p] == w.rows[p]
  {
    k := FirstRing(w.rows, 0, |w.rings|);
    fd0 := FirstFree(w.rows[pid], 0);
    fd1 := FirstFree(w.rows[pid], fd0 + 1);
    var u := Apply(w, Pipe(pid)).0;
    TwoSet(w, u, pid, fd0, fd1, u.rows[pid][fd0], u.rows[pid][fd1], k);
    Only(pid, fd0);
    Only(pid, fd1);
  }

  /** A row that was empty becomes a copy: it has the same ends. */
  lemma InheritEnds(w: World, k: nat, p: nat, c: nat, a: nat, b: nat)
    requires WorldOk(w) && Allowed(w, Inherit(p, c)) && p < |w.rows| && c < |w.rows| && p != c && a < |w.rows[p]| && b < |w.rows[p]|
    requires Ends(w, k, {(p, a)}, {(p, b)})
    ensures Ends(Apply(w, Inherit(p, c)).0, k, {(p, a), (c, a)}, {(p, b), (c, b)})
  {
  }

  lemma CloseEnds(w: World, k: nat, p: nat, i: nat, readers: set<Place>, writers: set<Place>)
    requires WorldOk(w) && Ends(w, k, readers, writers) && p < |w.rows| && i < |w.rows[p]| && !Free(w.rows[p][i])
    ensures Ends(Apply(w, Close(p, i)).0, k, readers - {(p, i)}, writers - {(p, i)})
  {
  }

  /** The places that are not of this process. */
  ghost function Others(s: set<Place>, p: int): set<Place>
  {
    set x | x in s && x.0 != p
  }

  lemma CloseAllEnds(w: World, k: nat, p: nat, readers: set<Place>, writers: set<Place>)
    requires WorldOk(w) && Ends(w, k, readers, writers) && p < |w.rows|
    ensures Ends(Apply(w, CloseAll(p)).0, k, Others(readers, p), Others(writers, p))
  {
  }

  /** A copy of a descriptor over another: that one's ends are gone, and it has this one's. */
  lemma DupEnds(w: World, k: nat, p: nat, i: nat, to: nat, readers: set<Place>, writers: set<Place>)
    requires WorldOk(w) && Ends(w, k, readers, writers) && p < |w.rows| && i < |w.rows[p]| && to < |w.rows[p]| && to != i && !Free(w.rows[p][i])
    ensures Ends(Apply(w, Dup(p, i, to)).0, k,
                 if (p, i) in readers then readers + {(p, to)} else readers - {(p, to)},
                 if (p, i) in writers then writers + {(p, to)} else writers - {(p, to)})
  {
  }

  // ----- The calls themselves -----

  /** Whether a process can be given a pipe: two free numbers, and a ring nobody names. */
  ghost predicate CanPipe(w: World, pid: int)
  {
    HasPid(w, pid) && (exists k :: 0 <= k < |w.rings| && RingFree(w.rows, k))
    && exists i, j :: 0 <= i < j < |w.rows[pid]| && Free(w.rows[pid][i]) && Free(w.rows[pid][j])
  }

  lemma PipeWhen(w: World, pid: int)
    requires WorldOk(w)
    ensures Apply(w, Pipe(pid)).1 == 0 <==> CanPipe(w, pid)
    ensures Apply(w, Pipe(pid)).1 == 0 || Apply(w, Pipe(pid)).1 == -1
  {
    if HasPid(w, pid) {
      var i := FirstFree(w.rows[pid], 0);
      if i < |w.rows[pid]| {
        var j := FirstFree(w.rows[pid], i + 1);
      }
      var k := FirstRing(w.rows, 0, |w.rings|);
    }
  }

  /** Two descriptors of one process on a ring of their own, where nothing waits. */
  ghost predicate FreshPipe(w: World, pid: int, fd0: int, fd1: int, k: nat)
  {
    && HasPath(w, pid, fd0) && HasPath(w, pid, fd1) && fd0 < fd1
    && Ends(w, k, {(pid, fd0)}, {(pid, fd1)}) && w.rings[k] == []
    && IsEnd(w.rows[pid][fd0], k, false) && IsEnd(w.rows[pid][fd1], k, true)
  }

  method NewPipe(m: Manager, pid: int) returns (r: int, fd0: int, fd1: int, ghost k: nat)
    requires m.Valid()
    modifies m
    ensures m.Valid() && (r == 0 <==> CanPipe(old(m.Abs()), pid))
    ensures r == 0 ==> FreshPipe(m.Abs(), pid, fd0, fd1, k)
    ensures r == 0 ==> |m.rows| == |old(m.rows)| && |m.rows[pid]| == |old(m.rows)[pid]|
    ensures r == 0 ==> forall p :: 0 <= p < |m.rows| && p != pid ==> m.rows[p] == old(m.rows)[p]
  {
    PipeWhen(m.Abs(), pid);
    ghost var w := m.Abs();
    r, fd0, fd1 := m.MakePipe(pid);
    k := 0;
    if r == 0 {
      ghost var a, b;
      k, a, b := PipeMade(w, pid);
    }
  }

  /** A write at a writing end, while somebody reads. */
  method PutIn(m: Manager, pid: int, i: int, data: seq<byte>, ghost k: nat, ghost readers: set<Place>, ghost writers: set<Place>) returns (n: int)
    requires m.Valid() && m.InTable(pid, i) && Ends(m.Abs(), k, readers, writers) && readers != {}
    requires 0 <= m.rows[pid][i].pipe && WriteRing(m.rows[pid][i]) == k
    modifies m`pipes, m`sent
    ensures m.Valid() && n == Min(|data|, 127 - |old(m.Abs().rings[k])|)
    ensures m.Abs() == old(m.Abs()).(rings := old(m.Abs().rings)[k := old(m.Abs().rings[k]) + data[..n]])
  {
    WriterTotal(m.Abs(), k, readers, writers);
    n := m.WritePipe(pid, i, data);
  }

  /** A read at a reading end. */
  method TakeOut(m: Manager, pid: int, i: int, len: nat, ghost k: nat) returns (read: seq<byte>)
    requires m.Valid() && m.InTable(pid, i) && 0 <= m.rows[pid][i].pipe && ReadRing(m.rows[pid][i]) == k && k < |m.pipes|
    modifies m`pipes, m`got
    ensures m.Valid() && |read| == Min(len, |old(m.Abs().rings[k])|) && read == old(m.Abs().rings[k])[..|read|]
    ensures m.Abs() == old(m.Abs()).(rings := old(m.Abs().rings)[k := old(m.Abs().rings[k])[|read|..]])
  {
    var n;
    n, read := m.ReadPipe(pid, i, len);
  }

  /** At the other kind of end, both refuse. */
  method WrongEnds(m: Manager, pid: int, fd0: int, fd1: int, data: seq<byte>, len: nat, ghost k: nat) returns (w: int, r: int)
    requires m.Valid() && m.InTable(pid, fd0) && m.InTable(pid, fd1)
    requires IsEnd(m.rows[pid][fd0], k, false) && IsEnd(m.rows[pid][fd1], k, true)
    modifies m`pipes, m`sent, m`got
    ensures m.Valid() && m.Abs() == old(m.Abs()) && w == -1 && r == -1
  {
    w := m.WritePipe(pid, fd0, data);
    var none;
    r, none := m.ReadPipe(pid, fd1, len);
  }

  /** What a new pipe carries: the second descriptor writes and the first reads, the bytes come
      out as they went in, and each end refuses what the other is for. */
  method PipeCarries(m: Manager, pid: int, data: seq<byte>, len: nat, other: seq<byte>)
    returns (r: int, fd0: int, fd1: int, n: int, read: seq<byte>, wrongWrite: int, wrongRead: int)
    requires m.Valid()
    modifies m
    ensures m.Valid() && (r == 0 <==> CanPipe(old(m.Abs()), pid))
    ensures r == 0 ==> n == Min(|data|, 127) && read == data[..Min(len, n)] && wrongWrite == -1 && wrongRead == -1
  {
    ghost var k;
    r, fd0, fd1, k := NewPipe(m, pid);
    n, read, wrongWrite, wrongRead := 0, [], 0, 0;
    if r != 0 {
      return;
    }
    wrongWrite, wrongRead := WrongEnds(m, pid, fd0, fd1, other, len, k);
    n := PutIn(m, pid, fd1, data, k, {(pid, fd0)}, {(pid, fd1)});
    read := TakeOut(m, pid, fd0, len, k);
  }

  // ----- Pairs -----

  /** Two descriptors on two rings, each reading what the other writes. */
  ghost predicate FreshPair(w: World, pid: int, fd0: int, fd1: int, a: nat, b: nat)
  {
    && HasPath(w, pid, fd0) && HasPath(w, pid, fd1) && fd0 < fd1 && a != b
    && Ends(w, a, {(pid, fd0)}, {(pid, fd1)}) && Ends(w, b, {(pid, fd1)}, {(pid, fd0)}) && w.rings[a] == w.rings[b] == []
    && ReadRing(w.rows[pid][fd0]) == WriteRing(w.rows[pid][fd1]) == a
    && ReadRing(w.rows[pid][fd1]) == WriteRing(w.rows[pid][fd0]) == b
  }

  lemma PairMade(w: World, pid: int) returns (a: nat, b: nat, fd0: nat, fd1: nat)
    requires WorldOk(w) && Apply(w, PipePair(pid)).1 == 0
    ensures HasPid(w, pid) && fd0 == FirstFree(w.rows[pid], 0) && fd0 < fd1 < |w.rows[pid]| && fd1 == FirstFree(w.rows[pid], fd0 + 1)
    ensures FreshPair(Apply(w, PipePair(pid)).0, pid, fd0, fd1, a, b)
  {
    a := FirstRing(w.rows, 0, |w.rings|);
    b := FirstRing(w.rows, a + 1, |w.rings|);
    fd0 := FirstFree(w.rows[pid], 0);
    fd1 := FirstFree(w.rows[pid], fd0 + 1);
    PairEnds(w, Apply(w, PipePair(pid)).0, pid, fd0, fd1, a, b);
  }

  lemma PairEnds(w: World, u: World, p: nat, i: nat, j: nat, a: nat, b: nat)
    requires p < |w.rows| && i < j < |w.rows[p]| && a < b < |w.rings| && RingFree(w.rows, a) && RingFree(w.rows, b)
    requires u == w.(rows := Set(Set(w.rows, p, i, w.rows[p][i].(pipe := a, back := b, write := false)), p, j,
                                 w.rows[p][j].(pipe := b, back := a, write := false)), rings := w.rings[a := []][b := []])
    ensures FreshPair(u, p, i, j, a, b)
  {
    TwoSet(w, u, p, i, j, u.rows[p][i], u.rows[p][j], a);
    TwoSet(w, u, p, i, j, u.rows[p][i], u.rows[p][j], b);
    Only(p, i);
    Only(p, j);
  }

  lemma Only(p: int, i: int)
    ensures If(true, (p, i)) + {} == {(p, i)} && {} + If(true, (p, i)) == {(p, i)}
  {
  }

  /** Two free numbers, and two rings nobody names. */
  ghost predicate CanPair(w: World, pid: int)
  {
    HasPid(w, pid) && (exists k, l :: 0 <= k < l < |w.rings| && RingFree(w.rows, k) && RingFree(w.rows, l))
    && exists i, j :: 0 <= i < j < |w.rows[pid]| && Free(w.rows[pid][i]) && Free(w.rows[pid][j])
  }

  lemma PairWhen(w: World, pid: int)
    requires WorldOk(w)
    ensures Apply(w, PipePair(pid)).1 == 0 <==> CanPair(w, pid)
  {
    if HasPid(w, pid) {
      var i := FirstFree(w.rows[pid], 0);
      if i < |w.rows[pid]| {
        var j := FirstFree(w.rows[pid], i + 1);
      }
      var k := FirstRing(w.rows, 0, |w.rings|);
      if k < |w.rings| {
        var l := FirstRing(w.rows, k + 1, |w.rings|);
      }
    }
  }

  method NewPair(m: Manager, pid: int) returns (r: int, fd0: int, fd1: int, ghost a: nat, ghost b: nat)
    requires m.Valid()
    modifies m
    ensures m.Valid() && (r == 0 <==> CanPair(old(m.Abs()), pid))
    ensures r == 0 ==> FreshPair(m.Abs(), pid, fd0, fd1, a, b)
  {
    PairWhen(m.Abs(), pid);
    ghost var w := m.Abs();
    r, fd0, fd1 := m.MakePair(pid);
    a, b := 0, 0;
    if r == 0 {
      ghost var i, j;
      a, b, i, j := PairMade(w, pid);
    }
  }

  /** What a new pair carries: each descriptor reads what the other writes, both at once. */
  method PairCarries(m: Manager, pid: int, data0: seq<byte>, data1: seq<byte>, len0: nat, len1: nat)
    returns (r: int, fd0: int, fd1: int, n0: int, n1: int, read0: seq<byte>, read1: seq<byte>)
    requires m.Valid()
    modifies m
    ensures m.Valid() && (r == 0 <==> CanPair(old(m.Abs()), pid))
    ensures r == 0 ==> n0 == Min(|data0|, 127) && n1 == Min(|data1|, 127)
    ensures r == 0 ==> read1 == data0[..Min(len1, n0)] && read0 == data1[..Min(len0, n1)]
  {
    ghost var a, b;
    r, fd0, fd1, a, b := NewPair(m, pid);
    n0, n1, read0, read1 := 0, 0, [], [];
    if r != 0 {
      return;
    }
    n0, n1 := PutBoth(m, pid, fd0, fd1, data0, data1, a, b);
    read0, read1 := TakeBoth(m, pid, fd0, fd1, len0, len1, a, b);
  }

  method PutBoth(m: Manager, pid: int, fd0: int, fd1: int, data0: seq<byte>, data1: seq<byte>, ghost a: nat, ghost b: nat) returns (n0: int, n1: int)
    requires m.Valid() && FreshPair(m.Abs(), pid, fd0, fd1, a, b)
    modifies m`pipes, m`sent
    ensures m.Valid() && n0 == Min(|data0|, 127) && n1 == Min(|data1|, 127)
    ensures m.Abs() == old(m.Abs()).(rings := old(m.Abs().rings)[b := data0[..n0]][a := data1[..n1]])
  {
    n0 := PutIn(m, pid, fd0, data0, b, {(pid, fd1)}, {(pid, fd0)});
    assert [] + data0[..n0] == data0[..n0];
    n1 := PutIn(m, pid, fd1, data1, a, {(pid, fd0)}, {(pid, fd1)});
    assert [] + data1[..n1] == data1[..n1];
  }

  method TakeBoth(m: Manager, pid: int, fd0: int, fd1: int, len0: nat, len1: nat, ghost a: nat, ghost b: nat) returns (read0: seq<byte>, read1: seq<byte>)
    requires m.Valid() && m.InTable(pid, fd0) && m.InTable(pid, fd1) && a < |m.pipes| && b < |m.pipes| && a != b
    requires 0 <= m.rows[pid][fd0].pipe && ReadRing(m.rows[pid][fd0]) == a && 0 <= m.rows[pid][fd1].pipe && ReadRing(m.rows[pid][fd1]) == b
    modifies m`pipes, m`got
    ensures m.Valid()
    ensures read0 == old(m.Abs().rings[a])[..Min(len0, |old(m.Abs().rings[a])|)]
    ensures read1 == old(m.Abs().rings[b])[..Min(len1, |old(m.Abs().rings[b])|)]
  {
    read1 := TakeOut(m, pid, fd1, len1, b);
    read0 := TakeOut(m, pid, fd0, len0, a);
  }

  // ----- A pipeline -----

  method CloseEnd(m: Manager, p: int, i: int, ghost k: nat, ghost readers: set<Place>, ghost writers: set<Place>)
    requires m.Valid() && m.InTable(p, i) && !Free(m.rows[p][i]) && Ends(m.Abs(), k, readers, writers)
    modifies m`rows, m`refs, m`pipes
    ensures m.Valid() && Ends(m.Abs(), k, readers - {(p, i)}, writers - {(p, i)}) && m.Abs().rings == old(m.Abs().rings)
    ensures m.rows == Set(old(m.rows), p, i, Released(old(m.rows)[p][i]))
  {
    CloseEnds(m.Abs(), k, p, i, readers, writers);
    var r := m.CloseFd(p, i);
  }

  method CloseRow(m: Manager, p: int, ghost k: nat, ghost readers: set<Place>, ghost writers: set<Place>)
    requires m.Valid() && 0 <= p < |m.rows| && Ends(m.Abs(), k, readers, writers)
    modifies m`rows, m`refs, m`pipes
    ensures m.Valid() && Ends(m.Abs(), k, Others(readers, p), Others(writers, p))
    ensures m.Abs().rings == old(m.Abs().rings) && |m.rows| == |old(m.rows)|
    ensures forall q :: 0 <= q < |m.rows| && q != p ==> m.rows[q] == old(m.rows)[q]
  {
    CloseAllEnds(m.Abs(), k, p, readers, writers);
    m.CloseAllFds(p);
  }

  method ShareRow(m: Manager, p: int, c: int, ghost k: nat, ghost a: nat, ghost b: nat)
    requires m.Valid() && 0 <= p < |m.rows| && 0 <= c < |m.rows| && p != c && |m.rows[c]| == |m.rows[p]|
    requires (forall i :: 0 <= i < |m.rows[c]| ==> Free(m.rows[c][i])) && m.InTable(p, a) && m.InTable(p, b)
    requires Ends(m.Abs(), k, {(p, a)}, {(p, b)})
    modifies m`rows, m`refs, m`pipes
    ensures m.Valid() && Ends(m.Abs(), k, {(p, a), (c, a)}, {(p, b), (c, b)}) && m.Abs().rings == old(m.Abs().rings)
    ensures m.rows == old(m.rows)[c := old(m.rows)[p]]
  {
    InheritEnds(m.Abs(), k, p, c, a, b);
    m.InheritRow(p, c);
  }

  /** dup2 over another number. */
  method Redirect(m: Manager, p: int, i: int, to: int, ghost k: nat, ghost readers: set<Place>, ghost writers: set<Place>)
    requires m.Valid() && m.InTable(p, i) && m.InTable(p, to) && i != to && !Free(m.rows[p][i]) && Ends(m.Abs(), k, readers, writers)
    modifies m`rows, m`refs, m`pipes
    ensures m.Valid() && m.Abs().rings == old(m.Abs().rings) && m.rows == Set(old(m.rows), p, to, old(m.rows)[p][i])
    ensures Ends(m.Abs(), k, if (p, i) in readers then readers + {(p, to)} else readers - {(p, to)},
                 if (p, i) in writers then writers + {(p, to)} else writers - {(p, to)})
  {
    DupEnds(m.Abs(), k, p, i, to, readers, writers);
    var fd := m.DupFd(p, i, to);
  }

  /** A writing end moved to a number, as a redirection does: copied there and closed here. */
  method MoveTo(m: Manager, p: int, i: int, to: int, ghost k: nat, ghost q: int, ghost j: int)
    requires m.Valid() && m.InTable(p, i) && m.InTable(p, to) && m.InTable(q, j) && p != q
    requires IsEnd(m.rows[p][i], k, true) && Ends(m.Abs(), k, {(q, j)}, {(p, i)})
    modifies m`rows, m`refs, m`pipes
    ensures m.Valid() && Ends(m.Abs(), k, {(q, j)}, {(p, to)}) && m.Abs().rings == old(m.Abs().rings)
    ensures |m.rows| == |old(m.rows)| && m.InTable(p, to) && IsEnd(m.rows[p][to], k, true)
    ensures forall q :: 0 <= q < |m.rows| && q != p ==> m.rows[q] == old(m.rows)[q]
  {
    if i != to {
      Redirect(m, p, i, to, k, {(q, j)}, {(p, i)});
      CloseEnd(m, p, i, k, {(q, j)} - {(p, to)}, {(p, i)} + {(p, to)});
      assert {(q, j)} - {(p, to)} - {(p, i)} == {(q, j)} && {(p, i)} + {(p, to)} - {(p, i)} == {(p, to)};
    }
  }

  /** The end of the file at a reading end, by what waits and who writes. */
  lemma EndWhen(w: World, k: nat, readers: set<Place>, writers: set<Place>, p: int, i: int)
    requires Ends(w, k, readers, writers) && HasPath(w, p, i) && IsEnd(w.rows[p][i], k, false)
    ensures AtEnd(w, p, i) <==> w.rings[k] == [] && writers == {}
  {
    WriterTotal(w, k, readers, writers);
  }

  /** The child inherits the pipe; the parent keeps its reading end only, and the child its
      writing end only, under another number. */
  method Connect(m: Manager, parent: int, child: int, fd0: int, fd1: int, out: int, ghost k: nat)
    requires m.Valid() && 0 <= parent < |m.rows| && 0 <= child < |m.rows| && parent != child && FreshPipe(m.Abs(), parent, fd0, fd1, k)
    requires |m.rows[child]| == |m.rows[parent]| && (forall i :: 0 <= i < |m.rows[child]| ==> Free(m.rows[child][i])) && m.InTable(parent, out)
    modifies m`rows, m`refs, m`pipes
    ensures m.Valid() && Ends(m.Abs(), k, {(parent, fd0)}, {(child, out)}) && m.Abs().rings == old(m.Abs().rings)
    ensures m.InTable(parent, fd0) && IsEnd(m.rows[parent][fd0], k, false) && m.InTable(child, out) && IsEnd(m.rows[child][out], k, true)
  {
    OneEndEach(m, parent, child, fd0, fd1, k);
    MoveTo(m, child, fd1, out, k, parent, fd0);
  }

  method OneEndEach(m: Manager, parent: int, child: int, fd0: int, fd1: int, ghost k: nat)
    requires m.Valid() && 0 <= parent < |m.rows| && 0 <= child < |m.rows| && parent != child && FreshPipe(m.Abs(), parent, fd0, fd1, k)
    requires |m.rows[child]| == |m.rows[parent]| && (forall i :: 0 <= i < |m.rows[child]| ==> Free(m.rows[child][i]))
    modifies m`rows, m`refs, m`pipes
    ensures m.Valid() && Ends(m.Abs(), k, {(parent, fd0)}, {(child, fd1)}) && m.Abs().rings == old(m.Abs().rings)
    ensures |m.rows| == |old(m.rows)| && |m.rows[child]| == |old(m.rows)[child]|
    ensures m.InTable(parent, fd0) && IsEnd(m.rows[parent][fd0], k, false) && m.InTable(child, fd1) && IsEnd(m.rows[child][fd1], k, true)
  {
    ShareRow(m, parent, child, k, fd0, fd1);
    CloseEnd(m, parent, fd1, k, {(parent, fd0), (child, fd0)}, {(parent, fd1), (child, fd1)});
    CloseEnd(m, child, fd0, k, {(parent, fd0), (child, fd0)}, {(child, fd1)});
    assert {(parent, fd0), (child, fd0)} - {(child, fd0)} == {(parent, fd0)};
  }

  method Flow(m: Manager, parent: int, child: int, fd0: int, out: int, data: seq<byte>, len: nat, ghost k: nat)
    returns (n: int, read: seq<byte>, early: bool, end: bool)
    requires m.Valid() && parent != child && Ends(m.Abs(), k, {(parent, fd0)}, {(child, out)}) && m.Abs().rings[k] == []
    requires m.InTable(parent, fd0) && IsEnd(m.rows[parent][fd0], k, false) && m.InTable(child, out) && IsEnd(m.rows[child][out], k, true)
    modifies m`rows, m`refs, m`pipes, m`sent, m`got
    ensures m.Valid() && n == Min(|data|, 127) && read == data[..Min(len, n)] && !early && (end <==> n <= len)
  {
    early := EndOf(m, parent, fd0, k, {(parent, fd0)}, {(child, out)});
    n := PutIn(m, child, out, data, k, {(parent, fd0)}, {(child, out)});
    assert [] + data[..n] == data[..n];
    read, end := LastRead(m, parent, child, fd0, out, len, k);
  }

  /** The child ends, and the parent reads. */
  method LastRead(m: Manager, parent: int, child: int, fd0: int, out: int, len: nat, ghost k: nat) returns (read: seq<byte>, end: bool)
    requires m.Valid() && 0 <= child < |m.rows| && parent != child && Ends(m.Abs(), k, {(parent, fd0)}, {(child, out)})
    requires m.InTable(parent, fd0) && IsEnd(m.rows[parent][fd0], k, false)
    modifies m`rows, m`refs, m`pipes, m`got
    ensures m.Valid() && read == old(m.Abs().rings[k])[..Min(len, |old(m.Abs().rings[k])|)] && (end <==> |old(m.Abs().rings[k])| <= len)
  {
    CloseRow(m, child, k, {(parent, fd0)}, {(child, out)});
    assert Others({(parent, fd0)}, child) == {(parent, fd0)} && Others({(child, out)}, child) == {};
    read := TakeOut(m, parent, fd0, len, k);
    end := EndOf(m, parent, fd0, k, {(parent, fd0)}, {});
  }

  method EndOf(m: Manager, p: int, i: int, ghost k: nat, ghost readers: set<Place>, ghost writers: set<Place>) returns (end: bool)
    requires m.Valid() && Ends(m.Abs(), k, readers, writers) && m.InTable(p, i) && IsEnd(m.rows[p][i], k, false)
    ensures end <==> m.Abs().rings[k] == [] && writers == {}
  {
    EndWhen(m.Abs(), k, readers, writers, p, i);
    end := m.AtEof(p, i);
  }

  /** What a shell does for `child | parent`: a pipe, a child with the same descriptors, the ends
      that nobody needs closed, the child's output put on another number; the child writes there
      and ends. The parent reads what was written, is not told of an end while the child lives,
      whatever that wrote, and is told of it afterwards exactly when all is read. */
  method Pipeline(m: Manager, parent: int, child: int, out: int, data: seq<byte>, len: nat)
    returns (r: int, n: int, read: seq<byte>, early: bool, end: bool)
    requires m.Valid() && 0 <= parent < |m.rows| && 0 <= child < |m.rows| && parent != child
    requires |m.rows[child]| == |m.rows[parent]| && (forall i :: 0 <= i < |m.rows[child]| ==> Free(m.rows[child][i]))
    requires 0 <= out < |m.rows[parent]|
    modifies m
    ensures m.Valid() && (r == 0 <==> CanPipe(old(m.Abs()), parent))
    ensures r == 0 ==> n == Min(|data|, 127) && read == data[..Min(len, n)] && !early && (end <==> n <= len)
  {
    var fd0, fd1;
    ghost var k;
    r, fd0, fd1, k := NewPipe(m, parent);
    n, read, early, end := 0, [], false, false;
    if r != 0 {
      return;
    }
    Connect(m, parent, child, fd0, fd1, out, k);
    n, read, early, end := Flow(m, parent, child, fd0, out, data, len, k);
  }
}
