/** Who holds what: the path tables of all processes, what each system call does to
    them, and what every run of calls keeps. Counters are left out on purpose; the
    I/O manager's counters are proved to be the totals defined here. */
module Descriptors {
  import opened Bits

  /** A descriptor: a device, an open file, one end of a pipe, or one end of a pair
      (which reads `pipe` and writes `back`). Negative means none. */
  datatype Slot = Slot(device: int, file: int, pipe: int, back: int, write: bool)

  /** The ways a descriptor can hold a shared object. */
  datatype Role = OnFile(k: nat) | Reads(k: nat) | Writes(k: nat)

  predicate Free(s: Slot)
  {
    s.device < 0 && s.file < 0 && s.pipe < 0
  }

  /** Does the descriptor hold the object in this role? */
  predicate Holds(s: Slot, r: Role)
  {
    match r
    case OnFile(k) => s.file == k
    case Reads(k) => s.pipe == k && (s.back >= 0 || !s.write)
    case Writes(k) => if s.back >= 0 then s.back == k else s.pipe == k && s.write
  }

  function Released(s: Slot): Slot
  {
    s.(device := -1, file := -1, pipe := -1, back := -1)
  }

  type Table = seq<seq<Slot>>

  // ----- Counting -----

  function One(b: bool): nat { if b then 1 else 0 }

  function InRow(row: seq<Slot>, r: Role): nat
  {
    if row == [] then 0 else InRow(row[..|row| - 1], r) + One(Holds(row[|row| - 1], r))
  }

  /** How many descriptors of all processes hold the object in this role. */
  function Total(rows: Table, r: Role): nat
  {
    if rows == [] then 0 else Total(rows[..|rows| - 1], r) + InRow(rows[|rows| - 1], r)
  }

  lemma {:induction false} InRowSet(row: seq<Slot>, i: nat, s: Slot, r: Role)
    requires i < |row|
    ensures InRow(row[i := s], r) + One(Holds(row[i], r)) == InRow(row, r) + One(Holds(s, r))
  {
    var last := |row| - 1;
    if i == last {
      assert row[i := s][..last] == row[..last];
    } else {
      assert row[i := s][..last] == row[..last][i := s];
      InRowSet(row[..last], i, s, r);
    }
  }

  lemma {:induction false} TotalSetRow(rows: Table, p: nat, row: seq<Slot>, r: Role)
    requires p < |rows|
    ensures Total(rows[p := row], r) + InRow(rows[p], r) == Total(rows, r) + InRow(row, r)
  {
    var last := |rows| - 1;
    if p == last {
      assert rows[p := row][..last] == rows[..last];
    } else {
      assert rows[p := row][..last] == rows[..last][p := row];
      TotalSetRow(rows[..last], p, row, r);
    }
  }

  function Set(rows: Table, p: nat, i: nat, s: Slot): Table
    requires p < |rows| && i < |rows[p]|
  {
    rows[p := rows[p][i := s]]
  }

  /** Replacing one descriptor moves each total by what it gave up and what it took. */
  lemma {:induction false} TotalSet(rows: Table, p: nat, i: nat, s: Slot, r: Role)
    requires p < |rows| && i < |rows[p]|
    ensures Total(Set(rows, p, i, s), r) + One(Holds(rows[p][i], r)) == Total(rows, r) + One(Holds(s, r))
  {
    InRowSet(rows[p], i, s, r);
    TotalSetRow(rows, p, rows[p][i := s], r);
  }

  lemma {:induction false} RowZero(row: seq<Slot>, r: Role)
    ensures InRow(row, r) == 0 <==> forall i :: 0 <= i < |row| ==> !Holds(row[i], r)
  {
    if row != [] {
      RowZero(row[..|row| - 1], r);
    }
  }

  /** A total of zero means that no descriptor anywhere holds the object that way. */
  lemma {:induction false} TotalZero(rows: Table, r: Role)
    ensures Total(rows, r) == 0 <==> forall p, i :: 0 <= p < |rows| && 0 <= i < |rows[p]| ==> !Holds(rows[p][i], r)
  {
    if rows != [] {
      var front, last := rows[..|rows| - 1], rows[|rows| - 1];
      TotalZero(front, r);
      RowZero(last, r);
      if Total(rows, r) == 0 {
        forall p, i | 0 <= p < |rows| && 0 <= i < |rows[p]|
          ensures !Holds(rows[p][i], r)
        {
          if p < |front| {
            assert front[p] == rows[p];
          }
        }
      }
    }
  }

  // ----- The calls -----

  /** The path tables, and the bytes waiting in each ring. */
  datatype World = World(rows: Table, rings: seq<seq<byte>>, nfiles: nat)

  predicate SlotOk(s: Slot, nfiles: nat, npipes: nat)
  {
    && s.file < nfiles && s.pipe < npipes && s.back < npipes
    && One(s.device >= 0) + One(s.file >= 0) + One(s.pipe >= 0) <= 1
    && (s.back >= 0 ==> s.pipe >= 0 && !s.write)
  }

  /** Every descriptor holds at most one thing, and that thing exists. */
  predicate WorldOk(w: World)
  {
    && (forall p, i :: 0 <= p < |w.rows| && 0 <= i < |w.rows[p]| ==> SlotOk(w.rows[p][i], w.nfiles, |w.rings|))
    && (forall k :: 0 <= k < |w.rings| ==> |w.rings[k]| < 128)
  }

  /** The first index from i on whose descriptor is free, or the length. */
  function FirstFree(row: seq<Slot>, i: nat): (j: nat)
    requires i <= |row|
    ensures i <= j <= |row|
    ensures j < |row| ==> Free(row[j])
    ensures forall k :: i <= k < j ==> !Free(row[k])
    decreases |row| - i
  {
    if i == |row| || Free(row[i]) then i else FirstFree(row, i + 1)
  }

  /** The first file from k on that no descriptor names, or the number of files. */
  function FirstFile(rows: Table, k: nat, n: nat): (j: nat)
    requires k <= n
    ensures k <= j <= n
    ensures j < n ==> Total(rows, OnFile(j)) == 0
    ensures forall i :: k <= i < j ==> Total(rows, OnFile(i)) > 0
    decreases n - k
  {
    if k == n || Total(rows, OnFile(k)) == 0 then k else FirstFile(rows, k + 1, n)
  }

  predicate RingFree(rows: Table, k: nat)
  {
    Total(rows, Reads(k)) == 0 && Total(rows, Writes(k)) == 0
  }

  /** The first ring from k on that no descriptor names, or the number of rings. */
  function FirstRing(rows: Table, k: nat, n: nat): (j: nat)
    requires k <= n
    ensures k <= j <= n
    ensures j < n ==> RingFree(rows, j)
    ensures forall i :: k <= i < j ==> !RingFree(rows, i)
    decreases n - k
  {
    if k == n || RingFree(rows, k) then k else FirstRing(rows, k + 1, n)
  }

  datatype Op =
    | OpenDevice(pid: int, device: nat)
    | OpenDeviceAs(pid: int, path: int, device: nat)
    | OpenFile(pid: int)
    | Dup(pid: int, path: int, to: int)
    | Close(pid: int, path: int)
    | CloseAll(pid: int)
    | Inherit(parent: int, child: int)
    | Pipe(pid: int)
    | PipePair(pid: int)
    | Read(pid: int, path: int, len: nat)
    | Write(pid: int, path: int, data: seq<byte>)

  predicate HasPid(w: World, pid: int)
  {
    0 <= pid < |w.rows|
  }

  predicate HasPath(w: World, pid: int, path: int)
  {
    HasPid(w, pid) && 0 <= path < |w.rows[pid]|
  }

  function At(w: World, pid: int, path: int): Slot
    requires HasPath(w, pid, path)
  {
    w.rows[pid][path]
  }

  function Put(w: World, pid: int, path: int, s: Slot): World
    requires HasPath(w, pid, path)
  {
    w.(rows := Set(w.rows, pid, path, s))
  }

  function ReleaseRow(row: seq<Slot>): (r: seq<Slot>)
    ensures |r| == |row|
  {
    seq(|row|, i requires 0 <= i < |row| => Released(row[i]))
  }

  /** What the process tables assume of their callers: a child's row is empty before it
      inherits, and a device is opened on a number only where no file or pipe is. */
  predicate Allowed(w: World, op: Op)
  {
    match op
    case Inherit(parent, child) =>
      HasPid(w, parent) && HasPid(w, child) ==>
        |w.rows[parent]| == |w.rows[child]| && forall i :: 0 <= i < |w.rows[child]| ==> Free(w.rows[child][i])
    case OpenDeviceAs(pid, path, _) =>
      HasPath(w, pid, path) ==> At(w, pid, path).file < 0 && At(w, pid, path).pipe < 0
    case _ => true
  }

  function ReadRing(s: Slot): int
  {
    if s.write && s.back < 0 then -1 else s.pipe
  }

  function WriteRing(s: Slot): int
  {
    if s.back >= 0 then s.back else if s.write then s.pipe else -1
  }

  function Min(a: nat, b: nat): nat { if a < b then a else b }

  /** The world after a call, and the number the call returns (a count of bytes for
      Read and Write on a pipe; -1 where they go to a driver). */
  function Apply(w: World, op: Op): (World, int)
    requires WorldOk(w)
  {
    match op
    case OpenDevice(pid, d) =>
      if !HasPid(w, pid) then (w, -1) else
      var fd := FirstFree(w.rows[pid], 0);
      if fd == |w.rows[pid]| then (w, -1)
      else (Put(w, pid, fd, At(w, pid, fd).(device := d, file := -1, pipe := -1, back := -1)), fd)
    case OpenDeviceAs(pid, path, d) =>
      if !HasPath(w, pid, path) then (w, -1)
      else (Put(w, pid, path, At(w, pid, path).(device := d)), path)
    case OpenFile(pid) =>
      if !HasPid(w, pid) then (w, -1) else
      var k, fd := FirstFile(w.rows, 0, w.nfiles), FirstFree(w.rows[pid], 0);
      if k == w.nfiles || fd == |w.rows[pid]| then (w, -1)
      else (Put(w, pid, fd, At(w, pid, fd).(file := k)), fd)
    case Dup(pid, path, to) => ApplyDup(w, pid, path, to)
    case Close(pid, path) =>
      if !HasPath(w, pid, path) || Free(At(w, pid, path)) then (w, -1)
      else (Put(w, pid, path, Released(At(w, pid, path))), 0)
    case CloseAll(pid) =>
      if !HasPid(w, pid) then (w, 0) else (w.(rows := w.rows[pid := ReleaseRow(w.rows[pid])]), 0)
    case Inherit(parent, child) =>
      if !HasPid(w, parent) || !HasPid(w, child) then (w, 0)
      else (w.(rows := w.rows[child := w.rows[parent]]), 0)
    case Pipe(pid) => ApplyPipe(w, pid)
    case PipePair(pid) => ApplyPair(w, pid)
    case Read(pid, path, len) =>
      if !HasPath(w, pid, path) then (w, -1) else
      var k := ReadRing(At(w, pid, path));
      if k < 0 then (w, -1) else
      var n: int := Min(len, |w.rings[k]|);
      (w.(rings := w.rings[k := w.rings[k][n..]]), n)
    case Write(pid, path, data) =>
      if !HasPath(w, pid, path) then (w, -1) else
      var k := WriteRing(At(w, pid, path));
      if k < 0 || Total(w.rows, Reads(k)) == 0 then (w, -1) else
      var n: int := Min(|data|, 127 - |w.rings[k]|);
      (w.(rings := w.rings[k := w.rings[k] + data[..n]]), n)
  }

  function ApplyDup(w: World, pid: int, path: int, to: int): (World, int)
  {
    if !HasPath(w, pid, path) || Free(At(w, pid, path)) then (w, -1)
    else if to == path then (w, path)
    else
      var at := if to < 0 then FirstFree(w.rows[pid], 0) else to;
      if at >= |w.rows[pid]| then (w, -1) else (Put(w, pid, at, At(w, pid, path)), at)
  }

  function ApplyPipe(w: World, pid: int): (World, int)
  {
    if !HasPid(w, pid) then (w, -1) else
    var row := w.rows[pid];
    var k := FirstRing(w.rows, 0, |w.rings|);
    var r := FirstFree(row, 0);
    if k == |w.rings| || r == |row| then (w, -1) else
    var t := FirstFree(row, r + 1);
    if t == |row| then (w, -1) else
    var rd, wr := row[r].(pipe := k, back := -1, write := false), row[t].(pipe := k, back := -1, write := true);
    (w.(rows := Set(Set(w.rows, pid, r, rd), pid, t, wr), rings := w.rings[k := []]), 0)
  }

  function ApplyPair(w: World, pid: int): (World, int)
  {
    if !HasPid(w, pid) then (w, -1) else
    var row := w.rows[pid];
    var a := FirstRing(w.rows, 0, |w.rings|);
    var r := FirstFree(row, 0);
    if a == |w.rings| || r == |row| then (w, -1) else
    var b := FirstRing(w.rows, a + 1, |w.rings|);
    var t := FirstFree(row, r + 1);
    if b == |w.rings| || t == |row| then (w, -1) else
    var e0, e1 := row[r].(pipe := a, back := b, write := false), row[t].(pipe := b, back := a, write := false);
    (w.(rows := Set(Set(w.rows, pid, r, e0), pid, t, e1), rings := w.rings[a := []][b := []]), 0)
  }

  /** The same with what is found, and where something is not. */
  lemma PairFound(w: World, pid: int, a: nat, b: nat, r: nat, t: nat)
    requires WorldOk(w) && HasPid(w, pid) && a < b < |w.rings| && a == FirstRing(w.rows, 0, |w.rings|) && b == FirstRing(w.rows, a + 1, |w.rings|)
    requires r < t < |w.rows[pid]| && r == FirstFree(w.rows[pid], 0) && t == FirstFree(w.rows[pid], r + 1)
    ensures var e0, e1 := w.rows[pid][r].(pipe := a, back := b, write := false), w.rows[pid][t].(pipe := b, back := a, write := false);
      Apply(w, PipePair(pid)) == (w.(rows := Set(Set(w.rows, pid, r, e0), pid, t, e1), rings := w.rings[a := []][b := []]), 0)
  {
  }

  lemma NoPair(w: World, pid: int)
    requires WorldOk(w)
    requires !HasPid(w, pid)
      || FirstRing(w.rows, 0, |w.rings|) == |w.rings| || FirstRing(w.rows, FirstRing(w.rows, 0, |w.rings|) + 1, |w.rings|) == |w.rings|
      || FirstFree(w.rows[pid], 0) == |w.rows[pid]| || FirstFree(w.rows[pid], FirstFree(w.rows[pid], 0) + 1) == |w.rows[pid]|
    ensures Apply(w, PipePair(pid)) == (w, -1)
  {
  }

  // ----- What every call keeps -----

  /** Every call keeps the tables well formed. */
  lemma OkKept(w: World, op: Op)
    requires WorldOk(w) && Allowed(w, op)
    ensures WorldOk(Apply(w, op).0)
  {
    match op
    case Pipe(who) => OkKeptByPipe(w, who);
    case PipePair(who) => OkKeptByPair(w, who);
    case _ =>
  }

  lemma OkKeptByPipe(w: World, who: int)
    requires WorldOk(w)
    ensures WorldOk(ApplyPipe(w, who).0)
  {
  }

  lemma OkKeptByPair(w: World, who: int)
    requires WorldOk(w)
    ensures WorldOk(ApplyPair(w, who).0)
  {
  }

  /** The end of a pipe has come for the holder of a descriptor: nothing is waiting and
      nothing can arrive. */
  predicate AtEnd(w: World, pid: int, path: int)
  {
    && HasPath(w, pid, path)
    && var s := At(w, pid, path);
       && 0 <= s.pipe < |w.rings| && !s.write
       && w.rings[s.pipe] == [] && Total(w.rows, Writes(s.pipe)) == 0
  }

  /** Held by somebody that reads it and by nobody that writes it, in terms of the tables. */
  lemma AtEndIs(w: World, pid: int, path: int)
    requires WorldOk(w) && AtEnd(w, pid, path)
    ensures var k := At(w, pid, path).pipe;
      !RingFree(w.rows, k) && forall p, i :: 0 <= p < |w.rows| && 0 <= i < |w.rows[p]| ==> !Holds(w.rows[p][i], Writes(k))
  {
    var k := At(w, pid, path).pipe;
    TotalZero(w.rows, Writes(k));
    TotalZero(w.rows, Reads(k));
    assert Holds(At(w, pid, path), Reads(k));
  }

  lemma EndKeptByPair(w: World, who: int, pid: int, path: int)
    requires WorldOk(w) && AtEnd(w, pid, path)
    requires var w' := ApplyPair(w, who).0; HasPath(w', pid, path) && At(w', pid, path) == At(w, pid, path)
    ensures AtEnd(ApplyPair(w, who).0, pid, path)
  {
    AtEndIs(w, pid, path);
    TotalZero(ApplyPair(w, who).0.rows, Writes(At(w, pid, path).pipe));
  }

  lemma EndKeptByPipe(w: World, who: int, pid: int, path: int)
    requires WorldOk(w) && AtEnd(w, pid, path)
    requires var w' := ApplyPipe(w, who).0; HasPath(w', pid, path) && At(w', pid, path) == At(w, pid, path)
    ensures AtEnd(ApplyPipe(w, who).0, pid, path)
  {
    AtEndIs(w, pid, path);
    TotalZero(ApplyPipe(w, who).0.rows, Writes(At(w, pid, path).pipe));
  }

  /** No call can give a ring a writer, or a byte, when nobody writes it and somebody
      still reads it. */
  lemma EndKept(w: World, op: Op, pid: int, path: int)
    requires WorldOk(w) && Allowed(w, op) && AtEnd(w, pid, path)
    requires var w' := Apply(w, op).0; HasPath(w', pid, path) && At(w', pid, path) == At(w, pid, path)
    ensures AtEnd(Apply(w, op).0, pid, path)
  {
    match op
    case Pipe(who) => EndKeptByPipe(w, who, pid, path);
    case PipePair(who) => EndKeptByPair(w, who, pid, path);
    case _ =>
      AtEndIs(w, pid, path);
      TotalZero(Apply(w, op).0.rows, Writes(At(w, pid, path).pipe));
  }

  function Run(w: World, ops: seq<Op>): World
    requires WorldOk(w) && AllAllowed(w, ops)
    decreases |ops|
  {
    if ops == [] then w else OkKept(w, ops[0]); Run(Apply(w, ops[0]).0, ops[1..])
  }

  predicate AllAllowed(w: World, ops: seq<Op>)
    requires WorldOk(w)
    decreases |ops|
  {
    ops == [] || (Allowed(w, ops[0]) && (OkKept(w, ops[0]); AllAllowed(Apply(w, ops[0]).0, ops[1..])))
  }

  /** The descriptor is held, unchanged, through the whole run. */
  predicate HeldThrough(w: World, ops: seq<Op>, pid: int, path: int, s: Slot)
    requires WorldOk(w) && AllAllowed(w, ops)
    decreases |ops|
  {
    HasPath(w, pid, path) && At(w, pid, path) == s
    && (ops == [] || (OkKept(w, ops[0]); HeldThrough(Apply(w, ops[0]).0, ops[1..], pid, path, s)))
  }

  /** End of file is final: whatever all processes do, for as long as the reader is held. */
  lemma {:induction false} EndIsFinal(w: World, ops: seq<Op>, pid: int, path: int, s: Slot)
    requires WorldOk(w) && AllAllowed(w, ops) && HeldThrough(w, ops, pid, path, s)
    requires AtEnd(w, pid, path)
    ensures AtEnd(Run(w, ops), pid, path)
    decreases |ops|
  {
    if ops != [] {
      OkKept(w, ops[0]);
      EndKept(w, ops[0], pid, path);
      EndIsFinal(Apply(w, ops[0]).0, ops[1..], pid, path, s);
    }
  }
}
