/** The I/O manager's tables: descriptors, open-file references, and pipe rings with
    their counts of readers and writers, as kernel/io.c updates them. */
module IoManager {
  import opened Bits
  import opened Descriptors

  // ----- A ring -----

  datatype Ring = Ring(buf: seq<byte>, head: nat, tail: nat, readers: int, writers: int)

  predicate RingOk(q: Ring)
  {
    |q.buf| == 128 && q.head < 128 && q.tail < 128
  }

  /** pipe_used: a difference of two 32-bit words, modulo the size. */
  function Used(q: Ring): nat
    requires RingOk(q)
  {
    U32(q.head + 0x1_0000_0000 - q.tail) % 128
  }

  /** The bytes waiting, oldest first. */
  function Contents(q: Ring): (c: seq<byte>)
    requires RingOk(q)
    ensures |c| < 128
  {
    seq(Used(q), i requires 0 <= i < Used(q) => q.buf[(q.tail + i) % 128])
  }

  function PutByte(q: Ring, b: byte): Ring
    requires RingOk(q)
  {
    q.(buf := q.buf[q.head := b], head := (q.head + 1) % 128)
  }

  function TakeByte(q: Ring): Ring
    requires RingOk(q)
  {
    q.(tail := (q.tail + 1) % 128)
  }

  lemma UsedIs(q: Ring)
    requires RingOk(q)
    ensures Used(q) == if q.head >= q.tail then q.head - q.tail else q.head + 128 - q.tail
  {
  }

  lemma PutOne(q: Ring, b: byte)
    requires RingOk(q) && Used(q) < 127
    ensures RingOk(PutByte(q, b)) && Contents(PutByte(q, b)) == Contents(q) + [b]
  {
    var p := PutByte(q, b);
    UsedIs(q);
    UsedIs(p);
    forall i | 0 <= i < Used(q)
      ensures Contents(p)[i] == Contents(q)[i]
    {
      assert (q.tail + i) % 128 != q.head;
    }
  }

  lemma TakeOne(q: Ring)
    requires RingOk(q) && Used(q) > 0
    ensures RingOk(TakeByte(q)) && Contents(q) == [q.buf[q.tail]] + Contents(TakeByte(q))
  {
    var p := TakeByte(q);
    UsedIs(q);
    UsedIs(p);
    var c, d := Contents(q), [q.buf[q.tail]] + Contents(p);
    assert |c| == |d|;
    forall i | 0 <= i < |c|
      ensures c[i] == d[i]
    {
      if i > 0 {
        NextIndex(q.tail, i - 1);
      }
    }
  }

  lemma NextIndex(tail: nat, i: nat)
    requires tail < 128
    ensures ((tail + 1) % 128 + i) % 128 == (tail + (i + 1)) % 128
  {
  }

  /** The loop of ubiqos_io_write. */
  method Fill(q0: Ring, data: seq<byte>) returns (q: Ring, n: nat)
    requires RingOk(q0)
    ensures RingOk(q) && q.readers == q0.readers && q.writers == q0.writers
    ensures n == Min(|data|, 127 - |Contents(q0)|) && Contents(q) == Contents(q0) + data[..n]
  {
    q, n := q0, 0;
    while n < |data| && Used(q) < 127
      invariant RingOk(q) && q.readers == q0.readers && q.writers == q0.writers
      invariant n <= |data| && Contents(q) == Contents(q0) + data[..n]
    {
      PutOne(q, data[n]);
      q := PutByte(q, data[n]);
      n := n + 1;
    }
  }

  /** The loop of ubiqos_io_read. */
  method Drain(q0: Ring, len: nat) returns (q: Ring, data: seq<byte>)
    requires RingOk(q0)
    ensures RingOk(q) && q.readers == q0.readers && q.writers == q0.writers
    ensures |data| == Min(len, |Contents(q0)|)
    ensures Contents(q0) == data + Contents(q)
  {
    q, data := q0, [];
    ghost var all := Contents(q0);
    while |data| < len && Used(q) > 0
      invariant RingOk(q) && q.readers == q0.readers && q.writers == q0.writers
      invariant |data| <= len && all == data + Contents(q)
    {
      TakeOne(q);
      Shifted(data, q.buf[q.tail], Contents(TakeByte(q)));
      data := data + [q.buf[q.tail]];
      q := TakeByte(q);
    }
    UsedIs(q);
  }

  lemma Shifted(a: seq<byte>, b: byte, c: seq<byte>)
    ensures a + ([b] + c) == (a + [b]) + c
  {
  }

  // ----- The counters -----

  predicate Known(r: Role, nfiles: nat, npipes: nat)
  {
    match r
    case OnFile(k) => k < nfiles
    case Reads(k) => k < npipes
    case Writes(k) => k < npipes
  }

  /** The counter the manager keeps for an object held in a role. */
  function Counter(refs: seq<int>, pipes: seq<Ring>, r: Role): int
    requires Known(r, |refs|, |pipes|)
  {
    match r
    case OnFile(k) => refs[k]
    case Reads(k) => pipes[k].readers
    case Writes(k) => pipes[k].writers
  }

  /** Every counter is off the number of holders by what one descriptor would add. */
  ghost predicate Counted(rows: Table, refs: seq<int>, pipes: seq<Ring>, s: Slot)
  {
    forall r: Role :: Known(r, |refs|, |pipes|) ==> Counter(refs, pipes, r) == Total(rows, r) + One(Holds(s, r))
  }

  const NOTHING: Slot := Slot(-1, -1, -1, -1, false)

  ghost predicate Exact(rows: Table, refs: seq<int>, pipes: seq<Ring>)
  {
    forall r: Role :: Known(r, |refs|, |pipes|) ==> Counter(refs, pipes, r) == Total(rows, r)
  }

  predicate SameBytes(p: seq<Ring>, q: seq<Ring>)
  {
    |p| == |q| && forall k :: 0 <= k < |p| ==> p[k] == q[k].(readers := p[k].readers, writers := p[k].writers)
  }

  /** A descriptor counted beforehand takes the place of a free one. */
  lemma FillSlot(rows: Table, refs: seq<int>, pipes: seq<Ring>, p: nat, i: nat, s: Slot)
    requires p < |rows| && i < |rows[p]| && Counted(rows, refs, pipes, s)
    requires Free(rows[p][i]) && rows[p][i].back < 0
    ensures Exact(Set(rows, p, i, s), refs, pipes)
  {
    forall r: Role | Known(r, |refs|, |pipes|)
      ensures Counter(refs, pipes, r) == Total(Set(rows, p, i, s), r)
    {
      TotalSet(rows, p, i, s, r);
    }
  }

  /** Emptying a descriptor leaves the counters one too high for what it held. */
  lemma EmptySlot(rows: Table, refs: seq<int>, pipes: seq<Ring>, p: nat, i: nat)
    requires p < |rows| && i < |rows[p]| && Exact(rows, refs, pipes)
    ensures Counted(Set(rows, p, i, Released(rows[p][i])), refs, pipes, rows[p][i])
  {
    var s := Released(rows[p][i]);
    forall r: Role | Known(r, |refs|, |pipes|)
      ensures Counter(refs, pipes, r) == Total(Set(rows, p, i, s), r) + One(Holds(rows[p][i], r))
    {
      TotalSet(rows, p, i, s, r);
    }
  }

  /** What waits in each ring. */
  function Waiting(pipes: seq<Ring>): (c: seq<seq<byte>>)
    requires forall k :: 0 <= k < |pipes| ==> RingOk(pipes[k])
    ensures |c| == |pipes|
  {
    seq(|pipes|, k requires 0 <= k < |pipes| => Contents(pipes[k]))
  }

  /** The tables before the first call. */
  function Start(nprocs: nat, npaths: nat, nfiles: nat, npipes: nat): (w: World)
    ensures WorldOk(w)
  {
    World(seq(nprocs, p => seq(npaths, i => Slot(-1, -1, -1, -1, false))), seq(npipes, k => []), nfiles)
  }

  lemma {:induction false} NoHolders(rows: Table)
    requires forall p, i :: 0 <= p < |rows| && 0 <= i < |rows[p]| ==> rows[p][i] == Slot(-1, -1, -1, -1, false)
    ensures forall r: Role :: Total(rows, r) == 0
  {
    forall r: Role
      ensures Total(rows, r) == 0
    {
      TotalZero(rows, r);
    }
  }

  class Manager {
    const names: seq<string>
    var rows: Table
    var refs: seq<int>
    var pipes: seq<Ring>
    ghost var sent: seq<seq<byte>>
    ghost var got: seq<seq<byte>>

    /** The tables as everybody outside sees them. */
    ghost function Abs(): World
      reads this
      requires forall k :: 0 <= k < |pipes| ==> RingOk(pipes[k])
    {
      World(rows, Waiting(pipes), |refs|)
    }

    ghost predicate Rings()
      reads this
    {
      && |sent| == |got| == |pipes|
      && (forall k :: 0 <= k < |pipes| ==> RingOk(pipes[k]))
      && (forall k :: 0 <= k < |pipes| ==> sent[k] == got[k] + Contents(pipes[k]))
    }

    /** Every counter equals the number of descriptors that hold the object; every ring
        has given out, in order, what went in, but for what still waits in it. */
    ghost predicate Valid()
      reads this
    {
      Rings() && WorldOk(Abs()) && Exact(rows, refs, pipes)
    }

    /** ubiqos_io_init: no descriptor holds anything, and nothing is counted. */
    constructor (nprocs: nat, npaths: nat, nfiles: nat, npipes: nat, names: seq<string>)
      ensures Valid() && this.names == names && Abs() == Start(nprocs, npaths, nfiles, npipes)
      ensures |rows| == nprocs && |refs| == nfiles && |pipes| == npipes
    {
      this.names := names;
      var row := seq(npaths, i => Slot(-1, -1, -1, -1, false));
      rows := seq(nprocs, p => row);
      refs := seq(nfiles, k => 0);
      pipes := seq(npipes, k => Ring(seq(128, i => 0), 0, 0, 0, 0));
      sent, got := seq(npipes, k => []), seq(npipes, k => []);
      new;
      NoHolders(rows);
      assert Waiting(pipes) == seq(npipes, k => []);
    }

    /** One more descriptor like s: what dup and inherit add to the counters. */
    method Retain(s: Slot)
      requires Rings() && SlotOk(s, |refs|, |pipes|) && Exact(rows, refs, pipes)
      modifies this`refs, this`pipes
      ensures |refs| == old(|refs|) && SameBytes(pipes, old(pipes)) && Counted(rows, refs, pipes, s)
    {
      if s.file >= 0 {
        refs := refs[s.file := refs[s.file] + 1];
      }
      if s.pipe >= 0 {
        if s.back >= 0 {
          pipes := pipes[s.pipe := pipes[s.pipe].(readers := pipes[s.pipe].readers + 1)];
          pipes := pipes[s.back := pipes[s.back].(writers := pipes[s.back].writers + 1)];
        } else if s.write {
          pipes := pipes[s.pipe := pipes[s.pipe].(writers := pipes[s.pipe].writers + 1)];
        } else {
          pipes := pipes[s.pipe := pipes[s.pipe].(readers := pipes[s.pipe].readers + 1)];
        }
      }
    }

    /** One descriptor like s less: file_release and pipe_release. */
    method Drop(s: Slot)
      requires Rings() && SlotOk(s, |refs|, |pipes|) && Counted(rows, refs, pipes, s)
      modifies this`refs, this`pipes
      ensures |refs| == old(|refs|) && SameBytes(pipes, old(pipes)) && Exact(rows, refs, pipes)
    {
      if s.file >= 0 {
        assert Counter(refs, pipes, OnFile(s.file)) > 0;
        if refs[s.file] > 0 {
          refs := refs[s.file := refs[s.file] - 1];
        }
      }
      if s.pipe >= 0 {
        if s.back >= 0 {
          assert Counter(refs, pipes, Reads(s.pipe)) > 0 && Counter(refs, pipes, Writes(s.back)) > 0;
          if pipes[s.pipe].readers != 0 {
            pipes := pipes[s.pipe := pipes[s.pipe].(readers := pipes[s.pipe].readers - 1)];
          }
          if pipes[s.back].writers != 0 {
            pipes := pipes[s.back := pipes[s.back].(writers := pipes[s.back].writers - 1)];
          }
        } else if s.write {
          assert Counter(refs, pipes, Writes(s.pipe)) > 0;
          if pipes[s.pipe].writers != 0 {
            pipes := pipes[s.pipe := pipes[s.pipe].(writers := pipes[s.pipe].writers - 1)];
          }
        } else {
          assert Counter(refs, pipes, Reads(s.pipe)) > 0;
          if pipes[s.pipe].readers != 0 {
            pipes := pipes[s.pipe := pipes[s.pipe].(readers := pipes[s.pipe].readers - 1)];
          }
        }
      }
    }
 
    predicate InTable(pid: int, path: int)
      reads this
    {
      0 <= pid < |rows| && 0 <= path < |rows[pid]|
    }

    /** The loops that look for the first descriptor holding nothing. */
    method FindFree(row: seq<Slot>, from: nat) returns (fd: int)
      requires from <= |row|
      ensures FirstFree(row, from) == (if fd < 0 then |row| else fd)
      ensures fd < |row|
    {
      var i := from;
      while i < |row|
        invariant from <= i <= |row| && FirstFree(row, i) == FirstFree(row, from)
      {
        if Free(row[i]) {
          return i;
        }
        i := i + 1;
      }
      return -1;
    }

    method FindRing(from: nat) returns (k: int)
      requires Valid() && from <= |pipes|
      ensures FirstRing(rows, from, |pipes|) == (if k < 0 then |pipes| else k)
      ensures k < |pipes|
    {
      var i := from;
      while i < |pipes|
        invariant from <= i <= |pipes| && FirstRing(rows, i, |pipes|) == FirstRing(rows, from, |pipes|)
      {
        assert Known(Reads(i), |refs|, |pipes|) && Known(Writes(i), |refs|, |pipes|);
        assert pipes[i].readers == Counter(refs, pipes, Reads(i)) && pipes[i].writers == Counter(refs, pipes, Writes(i));
        if pipes[i].readers == 0 && pipes[i].writers == 0 {
          return i;
        }
        i := i + 1;
      }
      return -1;
    }

    method FindFile() returns (k: int)
      requires Valid()
      ensures FirstFile(rows, 0, |refs|) == (if k < 0 then |refs| else k)
      ensures k < |refs|
    {
      var i := 0;
      while i < |refs|
        invariant 0 <= i <= |refs| && FirstFile(rows, i, |refs|) == FirstFile(rows, 0, |refs|)
      {
        assert Known(OnFile(i), |refs|, |pipes|) && refs[i] == Counter(refs, pipes, OnFile(i));
        if refs[i] == 0 {
          return i;
        }
        i := i + 1;
      }
      return -1;
    }

    method FindDevice(name: string) returns (d: int)
      ensures -1 <= d < |names|
      ensures d >= 0 ==> names[d] == name && name !in names[..d]
      ensures d < 0 ==> name !in names
    {
      for i := 0 to |names|
        invariant name !in names[..i]
      {
        if names[i] == name {
          return i;
        }
      }
      return -1;
    }

    /** ubiqos_io_open; whether the driver opens is the driver's to say. */
    method Open(name: string, pid: int, driverOpens: bool) returns (fd: int)
      requires Valid()
      modifies this`rows
      ensures Valid()
      ensures name in names && driverOpens ==>
        exists d: nat :: d < |names| && names[d] == name && (Abs(), fd) == Apply(old(Abs()), OpenDevice(pid, d))
      ensures name !in names || !driverOpens ==> fd == -1 && rows == old(rows)
      ensures fd >= 0 ==> InTable(pid, fd) && Free(old(rows)[pid][fd]) && 0 <= rows[pid][fd].device < |names|
      ensures fd >= 0 ==> names[rows[pid][fd].device] == name && rows == Set(old(rows), pid, fd, rows[pid][fd])
    {
      if pid < 0 || pid >= |rows| {
        if name in names {
          var d :| 0 <= d < |names| && names[d] == name;
          assert (Abs(), -1) == Apply(old(Abs()), OpenDevice(pid, d));
        }
        return -1;
      }
      var d := FindDevice(name);
      if d < 0 {
        return -1;
      }
      fd := FindFree(rows[pid], 0);
      if fd < 0 || !driverOpens {
        return -1;
      }
      ghost var w := Abs();
      OkKept(w, OpenDevice(pid, d));
      FillDevice(rows, refs, pipes, pid, fd, rows[pid][fd].(device := d, file := -1, pipe := -1, back := -1));
      rows := Set(rows, pid, fd, rows[pid][fd].(device := d, file := -1, pipe := -1, back := -1));
    }

    /** ubiqos_io_open_as, on a number that holds no file and no pipe. */
    method OpenAs(d: nat, pid: int, path: int) returns (fd: int)
      requires Valid() && Allowed(Abs(), OpenDeviceAs(pid, path, d))
      modifies this`rows
      ensures Valid() && (Abs(), fd) == Apply(old(Abs()), OpenDeviceAs(pid, path, d))
      ensures if old(InTable(pid, path)) then fd == path && InTable(pid, path) && rows[pid][path].device == d else fd == -1
    {
      if !InTable(pid, path) {
        return -1;
      }
      OkKept(Abs(), OpenDeviceAs(pid, path, d));
      FillDevice(rows, refs, pipes, pid, path, rows[pid][path].(device := d));
      rows := Set(rows, pid, path, rows[pid][path].(device := d));
      fd := path;
    }

    /** ubiqos_io_open_file */
    method OpenPath(pid: int) returns (fd: int)
      requires Valid()
      modifies this`rows, this`refs
      ensures Valid() && (Abs(), fd) == Apply(old(Abs()), OpenFile(pid))
      ensures fd >= 0 ==> InTable(pid, fd) && Free(old(rows)[pid][fd]) && rows[pid][fd].file >= 0
      ensures fd >= 0 ==> forall p, i :: 0 <= p < |old(rows)| && 0 <= i < |old(rows)[p]| ==> old(rows)[p][i].file != rows[pid][fd].file
    {
      if pid < 0 || pid >= |rows| {
        return -1;
      }
      var k := FindFile();
      fd := FindFree(rows[pid], 0);
      if k < 0 || fd < 0 {
        return -1;
      }
      OkKept(Abs(), OpenFile(pid));
      Unnamed(rows, k);
      ghost var was := refs;
      var s := rows[pid][fd].(file := k);
      assert Known(OnFile(k), |refs|, |pipes|) && was[k] == Counter(was, pipes, OnFile(k)) == 0;
      refs := refs[k := 1];
      assert Counted(rows, refs, pipes, s);
      FillSlot(rows, refs, pipes, pid, fd, s);
      rows := Set(rows, pid, fd, s);
    }

    /** ubiqos_io_close, for whatever the descriptor holds. */
    method CloseFd(pid: int, path: int) returns (r: int)
      requires Valid()
      modifies this`rows, this`refs, this`pipes
      ensures Valid() && (Abs(), r) == Apply(old(Abs()), Close(pid, path))
      ensures SameBytes(pipes, old(pipes))
    {
      if !InTable(pid, path) || Free(rows[pid][path]) {
        return -1;
      }
      ghost var w := Abs();
      OkKept(w, Close(pid, path));
      ReleaseAt(pid, path);
      return 0;
    }

    /** file_release, pipe_release, and letting go of the device. */
    method ReleaseAt(pid: nat, path: nat)
      requires Valid() && InTable(pid, path)
      modifies this`rows, this`refs, this`pipes
      ensures Valid() && SameBytes(pipes, old(pipes)) && |refs| == old(|refs|)
      ensures rows == Set(old(rows), pid, path, Released(old(rows)[pid][path]))
      ensures Abs() == old(Abs()).(rows := rows)
    {
      var s := rows[pid][path];
      ghost var w := Abs();
      EmptySlot(rows, refs, pipes, pid, path);
      rows := Set(rows, pid, path, Released(s));
      Drop(s);
      SameWaiting(pipes, old(pipes));
      assert Abs() == w.(rows := rows);
    }

    /** ubiqos_io_close_all */
    method CloseAllFds(pid: int)
      requires Valid()
      modifies this`rows, this`refs, this`pipes
      ensures Valid() && Abs() == Apply(old(Abs()), CloseAll(pid)).0
    {
      if pid < 0 || pid >= |rows| {
        return;
      }
      ghost var before, w := rows, Abs();
      for i := 0 to |rows[pid]|
        invariant Valid() && |rows| == |before| && |rows[pid]| == |before[pid]| && |sent| == old(|sent|)
        invariant Abs() == w.(rows := rows)
        invariant rows == before[pid := rows[pid]]
        invariant forall j :: 0 <= j < |rows[pid]| ==> rows[pid][j] == if j < i then Released(before[pid][j]) else before[pid][j]
      {
        ReleaseAt(pid, i);
      }
      assert rows[pid] == ReleaseRow(before[pid]);
    }

    /** ubiqos_io_dup: dup for a negative `to`, dup2 otherwise. */
    method DupFd(pid: int, path: int, to: int) returns (fd: int)
      requires Valid()
      modifies this`rows, this`refs, this`pipes
      ensures Valid() && (Abs(), fd) == Apply(old(Abs()), Dup(pid, path, to))
    {
      if !InTable(pid, path) || Free(rows[pid][path]) {
        return -1;
      }
      if to == path {
        return path;
      }
      ghost var w := Abs();
      OkKept(w, Dup(pid, path, to));
      var src := rows[pid][path];
      if to < 0 {
        fd := FindFree(rows[pid], 0);
        if fd < 0 {
          return -1;
        }
      } else if to >= |rows[pid]| {
        return -1;
      } else {
        fd := to;
        if !Free(rows[pid][to]) {
          ghost var before := rows;
          ReleaseAt(pid, to);
          SetTwice(before, pid, to, Released(before[pid][to]), src);
        }
      }
      CopyInto(pid, fd, src);
    }

    /** A copy of a descriptor put where nothing is held, and counted. */
    method CopyInto(pid: nat, fd: nat, s: Slot)
      requires Valid() && InTable(pid, fd) && Free(rows[pid][fd]) && SlotOk(s, |refs|, |pipes|)
      modifies this`rows, this`refs, this`pipes
      ensures Valid() && rows == Set(old(rows), pid, fd, s) && Abs() == old(Abs()).(rows := rows)
      ensures |sent| == old(|sent|)
    {
      Retain(s);
      FillSlot(rows, refs, pipes, pid, fd, s);
      rows := Set(rows, pid, fd, s);
      SameWaiting(pipes, old(pipes));
    }

    /** ubiqos_io_inherit, into an empty row. */
    method InheritRow(parent: int, child: int)
      requires Valid() && Allowed(Abs(), Inherit(parent, child))
      modifies this`rows, this`refs, this`pipes
      ensures Valid() && Abs() == Apply(old(Abs()), Inherit(parent, child)).0
    {
      if parent < 0 || parent >= |rows| || child < 0 || child >= |rows| {
        return;
      }
      ghost var before, w := rows, Abs();
      for i := 0 to |rows[parent]|
        invariant Valid() && |rows| == |before| && |rows[child]| == |before[child]| == |before[parent]|
        invariant Abs() == w.(rows := rows)
        invariant rows == before[child := rows[child]]
        invariant forall j :: 0 <= j < |rows[child]| ==> rows[child][j] == if j < i then before[parent][j] else before[child][j]
      {
        CopyInto(child, i, rows[parent][i]);
      }
      assert rows[child] == before[parent];
    }

    /** ubiqos_io_pipe */
    method MakePipe(pid: int) returns (r: int, fd0: int, fd1: int)
      requires Valid()
      modifies this
      ensures Valid() && (Abs(), r) == Apply(old(Abs()), Pipe(pid))
      ensures r == 0 ==> 0 <= pid < |rows| && 0 <= fd0 < fd1 < |rows[pid]|
      ensures r == 0 ==> fd0 == FirstFree(old(rows)[pid], 0) && fd1 == FirstFree(old(rows)[pid], fd0 + 1)
    {
      r, fd0, fd1 := -1, -1, -1;
      if pid < 0 || pid >= |rows| {
        return;
      }
      var k := FindRing(0);
      fd0, fd1 := FindTwoFree(rows[pid]);
      if k < 0 || fd1 < 0 {
        return;
      }
      OkKept(Abs(), Pipe(pid));
      var rd := rows[pid][fd0].(pipe := k, back := -1, write := false);
      var wr := rows[pid][fd1].(pipe := k, back := -1, write := true);
      PipeCounters(rows, refs, pipes, k, rd, wr);
      WaitingSet(pipes, k, Empty(pipes[k]));
      Install(pid, fd0, fd1, rd, wr, pipes[k := Empty(pipes[k])], {k});
      r := 0;
    }

    /** ubiqos_io_pipepair */
    method MakePair(pid: int) returns (r: int, fd0: int, fd1: int)
      requires Valid()
      modifies this
      ensures Valid() && (Abs(), r) == Apply(old(Abs()), PipePair(pid))
      ensures r == 0 ==> 0 <= pid < |rows| && 0 <= fd0 < fd1 < |rows[pid]|
      ensures r == 0 ==> fd0 == FirstFree(old(rows)[pid], 0) && fd1 == FirstFree(old(rows)[pid], fd0 + 1)
    {
      r, fd0, fd1 := -1, -1, -1;
      ghost var w := Abs();
      if pid < 0 || pid >= |rows| {
        NoPair(w, pid);
        return;
      }
      var a, b := FindTwoRings();
      fd0, fd1 := FindTwoFree(rows[pid]);
      if b < 0 || fd1 < 0 {
        NoPair(w, pid);
        return;
      }
      PairFound(w, pid, a, b, fd0, fd1);
      OkKept(Abs(), PipePair(pid));
      PairAt(pid, a, b, fd0, fd1);
      r := 0;
    }

    /** Two rings crossed between two free descriptors. */
    method PairAt(pid: nat, a: nat, b: nat, fd0: nat, fd1: nat)
      requires Valid() && a < b < |pipes| && RingFree(rows, a) && RingFree(rows, b)
      requires InTable(pid, fd0) && InTable(pid, fd1) && fd0 < fd1 && Free(rows[pid][fd0]) && Free(rows[pid][fd1])
      modifies this
      ensures Rings() && Exact(rows, refs, pipes) && |refs| == old(|refs|)
      ensures rows == Set(Set(old(rows), pid, fd0, old(rows[pid][fd0].(pipe := a, back := b, write := false))),
                          pid, fd1, old(rows[pid][fd1].(pipe := b, back := a, write := false)))
      ensures Waiting(pipes) == Waiting(old(pipes))[a := []][b := []]
    {
      var e0 := rows[pid][fd0].(pipe := a, back := b, write := false);
      var e1 := rows[pid][fd1].(pipe := b, back := a, write := false);
      PairCounters(rows, refs, pipes, a, b, e0, e1);
      WaitingSet(pipes, a, Empty(pipes[a]));
      WaitingSet(pipes[a := Empty(pipes[a])], b, Empty(pipes[b]));
      Install(pid, fd0, fd1, e0, e1, pipes[a := Empty(pipes[a])][b := Empty(pipes[b])], {a, b});
    }

    method FindTwoRings() returns (a: int, b: int)
      requires Valid()
      ensures a < |pipes| && b < |pipes|
      ensures FirstRing(rows, 0, |pipes|) == (if a < 0 then |pipes| else a)
      ensures if a < 0 then b < 0 else FirstRing(rows, a + 1, |pipes|) == (if b < 0 then |pipes| else b)
    {
      a := FindRing(0);
      b := -1;
      if a >= 0 {
        b := FindRing(a + 1);
      }
    }

    method FindTwoFree(row: seq<Slot>) returns (i: int, j: int)
      ensures i < |row| && j < |row|
      ensures FirstFree(row, 0) == (if i < 0 then |row| else i)
      ensures if i < 0 then j < 0 else FirstFree(row, i + 1) == (if j < 0 then |row| else j)
    {
      i := FindFree(row, 0);
      j := -1;
      if i >= 0 {
        j := FindFree(row, i + 1);
      }
    }

    /** The new rings and the two new descriptors, put in place together. */
    method Install(pid: nat, fd0: nat, fd1: nat, s: Slot, t: Slot, renewed: seq<Ring>, ghost ks: set<int>)
      requires Rings() && Exact(rows, refs, pipes) && InTable(pid, fd0) && InTable(pid, fd1) && fd0 < fd1
      requires Free(rows[pid][fd0]) && Free(rows[pid][fd1]) && rows[pid][fd0].back < 0 && rows[pid][fd1].back < 0
      requires |renewed| == |pipes| && AddsEnds(refs, pipes, renewed, s, t)
      requires forall k :: 0 <= k < |pipes| ==> renewed[k] == if k in ks then Empty(pipes[k]) else pipes[k]
      modifies this
      ensures Rings() && Exact(rows, refs, pipes) && refs == old(refs) && pipes == renewed
      ensures rows == Set(Set(old(rows), pid, fd0, s), pid, fd1, t)
    {
      NewEnds(rows, refs, pipes, pid, fd0, fd1, s, t, renewed);
      pipes := renewed;
      rows := Set(Set(rows, pid, fd0, s), pid, fd1, t);
      sent, got := Cleared(sent, ks), Cleared(got, ks);
    }

    /** ubiqos_io_read on a pipe, as pipe_entry found it; -1 at the wrong end. */
    method ReadPipe(pid: int, path: int, len: nat) returns (n: int, data: seq<byte>)
      requires Valid() && InTable(pid, path) && rows[pid][path].pipe >= 0
      modifies this`pipes, this`got
      ensures Valid() && (Abs(), n) == Apply(old(Abs()), Read(pid, path, len))
      ensures n >= 0 ==> var k := rows[pid][path].pipe;
        n == |data| && data == Contents(old(pipes)[k])[..n] && got[k] == old(got)[k] + data
    {
      var s := rows[pid][path];
      if s.write && s.back < 0 {
        return -1, [];
      }
      OkKept(Abs(), Read(pid, path, len));
      data := DrainRing(s.pipe, len);
      n := |data|;
    }

    method DrainRing(k: nat, len: nat) returns (data: seq<byte>)
      requires Rings() && Exact(rows, refs, pipes) && k < |pipes|
      modifies this`pipes, this`got
      ensures Rings() && Exact(rows, refs, pipes)
      ensures |data| == Min(len, |Contents(old(pipes)[k])|) && data == Contents(old(pipes)[k])[..|data|]
      ensures Waiting(pipes) == Waiting(old(pipes))[k := Contents(old(pipes)[k])[|data|..]]
      ensures |got| == old(|got|) && got[k] == old(got)[k] + data
    {
      var q;
      q, data := Drain(pipes[k], len);
      assert Contents(pipes[k]) == data + Contents(q);
      SameCounters(rows, refs, pipes, k, q);
      WaitingSet(pipes, k, q);
      pipes := pipes[k := q];
      got := got[k := got[k] + data];
    }

    /** ubiqos_io_write on a pipe; -1 at the wrong end or when nobody reads it. */
    method WritePipe(pid: int, path: int, data: seq<byte>) returns (n: int)
      requires Valid() && InTable(pid, path) && rows[pid][path].pipe >= 0
      modifies this`pipes, this`sent
      ensures Valid() && (Abs(), n) == Apply(old(Abs()), Write(pid, path, data))
      ensures n >= 0 ==> var k := WriteRing(rows[pid][path]);
        0 <= k < |sent| && n <= |data| && sent[k] == old(sent)[k] + data[..n]
    {
      var s := rows[pid][path];
      if !s.write && s.back < 0 {
        return -1;
      }
      var k := if s.back >= 0 then s.back else s.pipe;
      assert Known(Reads(k), |refs|, |pipes|) && pipes[k].readers == Counter(refs, pipes, Reads(k));
      if pipes[k].readers == 0 {
        return -1;
      }
      OkKept(Abs(), Write(pid, path, data));
      n := FillRing(k, data);
    }

    method FillRing(k: nat, data: seq<byte>) returns (n: nat)
      requires Rings() && Exact(rows, refs, pipes) && k < |pipes|
      modifies this`pipes, this`sent
      ensures Rings() && Exact(rows, refs, pipes)
      ensures n == Min(|data|, 127 - |Contents(old(pipes)[k])|)
      ensures Waiting(pipes) == Waiting(old(pipes))[k := Contents(old(pipes)[k]) + data[..n]]
      ensures |sent| == old(|sent|) && sent[k] == old(sent)[k] + data[..n]
    {
      var q;
      q, n := Fill(pipes[k], data);
      SameCounters(rows, refs, pipes, k, q);
      WaitingSet(pipes, k, q);
      pipes := pipes[k := q];
      sent := sent[k := sent[k] + data[..n]];
    }

    /** ubiqos_io_at_eof on a pipe. */
    method AtEof(pid: int, path: int) returns (end: bool)
      requires Valid() && InTable(pid, path) && rows[pid][path].pipe >= 0
      ensures end <==> AtEnd(Abs(), pid, path)
    {
      var s := rows[pid][path];
      assert Known(Writes(s.pipe), |refs|, |pipes|) && pipes[s.pipe].writers == Counter(refs, pipes, Writes(s.pipe));
      end := !s.write && Used(pipes[s.pipe]) == 0 && pipes[s.pipe].writers == 0;
    }
  }

  ghost function Cleared(h: seq<seq<byte>>, ks: set<int>): seq<seq<byte>>
  {
    seq(|h|, k requires 0 <= k < |h| => if k in ks then [] else h[k])
  }

  lemma WaitingSet(pipes: seq<Ring>, k: nat, q: Ring)
    requires k < |pipes| && RingOk(q) && forall j :: 0 <= j < |pipes| ==> RingOk(pipes[j])
    ensures Waiting(pipes[k := q]) == Waiting(pipes)[k := Contents(q)]
  {
  }

  /** A ring as a new pipe finds it: empty, one end of each kind. */
  function Empty(q: Ring): (e: Ring)
    requires RingOk(q)
    ensures RingOk(e) && Contents(e) == []
  {
    Ring(q.buf, 0, 0, 1, 1)
  }

  /** The counters of `renewed` are the old ones and what two descriptors add. */
  ghost predicate AddsEnds(refs: seq<int>, pipes: seq<Ring>, renewed: seq<Ring>, s: Slot, t: Slot)
    requires |renewed| == |pipes|
  {
    forall r: Role :: Known(r, |refs|, |pipes|) ==>
      Counter(refs, renewed, r) == Counter(refs, pipes, r) + One(Holds(s, r)) + One(Holds(t, r))
  }

  lemma PipeCounters(rows: Table, refs: seq<int>, pipes: seq<Ring>, k: nat, rd: Slot, wr: Slot)
    requires k < |pipes| && RingOk(pipes[k]) && Exact(rows, refs, pipes) && RingFree(rows, k)
    requires rd.file < 0 && rd.pipe == k && rd.back < 0 && !rd.write
    requires wr.file < 0 && wr.pipe == k && wr.back < 0 && wr.write
    ensures AddsEnds(refs, pipes, pipes[k := Empty(pipes[k])], rd, wr)
  {
    var renewed := pipes[k := Empty(pipes[k])];
    forall r: Role | Known(r, |refs|, |pipes|)
      ensures Counter(refs, renewed, r) == Counter(refs, pipes, r) + One(Holds(rd, r)) + One(Holds(wr, r))
    {
      assert Counter(refs, pipes, r) == Total(rows, r);
    }
  }

  lemma PairCounters(rows: Table, refs: seq<int>, pipes: seq<Ring>, a: nat, b: nat, s: Slot, t: Slot)
    requires a < b < |pipes| && RingOk(pipes[a]) && RingOk(pipes[b]) && Exact(rows, refs, pipes)
    requires RingFree(rows, a) && RingFree(rows, b)
    requires s.file < 0 && s.pipe == a && s.back == b && t.file < 0 && t.pipe == b && t.back == a
    ensures AddsEnds(refs, pipes, pipes[a := Empty(pipes[a])][b := Empty(pipes[b])], s, t)
  {
    var renewed := pipes[a := Empty(pipes[a])][b := Empty(pipes[b])];
    forall r: Role | Known(r, |refs|, |pipes|)
      ensures Counter(refs, renewed, r) == Counter(refs, pipes, r) + One(Holds(s, r)) + One(Holds(t, r))
    {
      assert Counter(refs, pipes, r) == Total(rows, r);
    }
  }

  /** Two new ends in free descriptors, on rings nobody named, whose counts start at one. */
  lemma NewEnds(rows: Table, refs: seq<int>, pipes: seq<Ring>, p: nat, i: nat, j: nat, s: Slot, t: Slot, renewed: seq<Ring>)
    requires p < |rows| && i < j < |rows[p]| && Exact(rows, refs, pipes) && |renewed| == |pipes|
    requires Free(rows[p][i]) && Free(rows[p][j]) && rows[p][i].back < 0 && rows[p][j].back < 0
    requires AddsEnds(refs, pipes, renewed, s, t)
    ensures Exact(Set(Set(rows, p, i, s), p, j, t), refs, renewed)
  {
    forall r: Role | Known(r, |refs|, |renewed|)
      ensures Counter(refs, renewed, r) == Total(Set(Set(rows, p, i, s), p, j, t), r)
    {
      TotalSet(rows, p, i, s, r);
      TotalSet(Set(rows, p, i, s), p, j, t, r);
    }
  }

  lemma SameCounters(rows: Table, refs: seq<int>, pipes: seq<Ring>, k: nat, q: Ring)
    requires k < |pipes| && q.readers == pipes[k].readers && q.writers == pipes[k].writers
    requires Exact(rows, refs, pipes)
    ensures Exact(rows, refs, pipes[k := q])
  {
    forall r: Role | Known(r, |refs|, |pipes|)
      ensures Counter(refs, pipes[k := q], r) == Total(rows, r)
    {
      assert Counter(refs, pipes[k := q], r) == Counter(refs, pipes, r);
    }
  }

  lemma SetTwice(rows: Table, p: nat, i: nat, s: Slot, t: Slot)
    requires p < |rows| && i < |rows[p]|
    ensures Set(Set(rows, p, i, s), p, i, t) == Set(rows, p, i, t)
  {
    assert rows[p][i := s][i := t] == rows[p][i := t];
  }

  lemma SameWaiting(p: seq<Ring>, q: seq<Ring>)
    requires SameBytes(p, q) && forall k :: 0 <= k < |q| ==> RingOk(q[k])
    ensures forall k :: 0 <= k < |p| ==> RingOk(p[k]) && Contents(p[k]) == Contents(q[k])
    ensures Waiting(p) == Waiting(q)
  {
  }

  /** A file that nobody holds is named by no descriptor. */
  lemma Unnamed(rows: Table, k: nat)
    requires Total(rows, OnFile(k)) == 0
    ensures forall p, i :: 0 <= p < |rows| && 0 <= i < |rows[p]| ==> rows[p][i].file != k
  {
    TotalZero(rows, OnFile(k));
    forall p, i | 0 <= p < |rows| && 0 <= i < |rows[p]|
      ensures rows[p][i].file != k
    {
      assert !Holds(rows[p][i], OnFile(k));
    }
  }

  /** A device is nobody's counter. */
  lemma FillDevice(rows: Table, refs: seq<int>, pipes: seq<Ring>, p: nat, i: nat, s: Slot)
    requires p < |rows| && i < |rows[p]| && Exact(rows, refs, pipes)
    requires rows[p][i].file < 0 && rows[p][i].pipe < 0 && rows[p][i].back < 0
    requires s.file < 0 && s.pipe < 0 && s.back < 0
    ensures Exact(Set(rows, p, i, s), refs, pipes)
  {
    forall r: Role | Known(r, |refs|, |pipes|)
      ensures Counter(refs, pipes, r) == Total(Set(rows, p, i, s), r)
    {
      TotalSet(rows, p, i, s, r);
    }
  }
}
