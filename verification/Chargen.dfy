/** The character generator's cells: a ring of 256 rows, the rows that fall out of it kept in
    a deeper ring, and a view that stays on the same text while lines arrive. */
module Chargen {
  import opened Bits

  datatype Cell = Cell(ch: byte, attr: byte)

  type Row = seq<Cell>

  // ----- The two rings as one list of rows -----

  /** What the two rings hold. `deep` is empty on a board without the memory for it. */
  datatype Text = Text(rows: nat, ring: seq<Row>, origin: nat, history: nat, deep: seq<Row>, head: nat, count: nat)

  /** `rows` is at most half the ring, so that a view of old rows never shows live ones. */
  predicate TextOk(t: Text)
  {
    && 1 <= t.rows <= 128 && |t.ring| == 256 && t.origin < 256 && t.history <= 256 - t.rows
    && (|t.deep| == 0 || |t.deep| == 4096) && t.head < 4096 && t.count <= |t.deep|
    && (t.count > 0 ==> t.history == 256 - t.rows)
  }

  /** The row k below the top of the live screen; above it for a negative k. */
  function RingRow(t: Text, k: int): Row
    requires TextOk(t) && -256 <= k < 256
  {
    t.ring[(t.origin + 256 + k) % 256]
  }

  /** The j-th row of the deeper ring, the oldest first. */
  function DeepRow(t: Text, j: nat): Row
    requires TextOk(t) && j < t.count
  {
    t.deep[(t.head + 4096 - t.count + j) % 4096]
  }

  /** Every row there is, oldest first, the live screen last. */
  function Lines(t: Text): (l: seq<Row>)
    requires TextOk(t)
    ensures |l| == t.count + t.history + t.rows
  {
    seq(t.count, j requires 0 <= j < t.count => DeepRow(t, j))
      + seq(t.history + t.rows, i requires 0 <= i < t.history + t.rows => RingRow(t, i - t.history))
  }

  lemma LinesAt(t: Text, i: nat)
    requires TextOk(t) && i < t.count + t.history + t.rows
    ensures Lines(t)[i] == if i < t.count then DeepRow(t, i) else RingRow(t, i - t.count - t.history)
  {
  }

  /** How many rows of history can be kept. */
  function Capacity(t: Text): nat
    requires TextOk(t)
  {
    256 - t.rows + |t.deep|
  }

  function Drop(l: seq<Row>, n: nat): seq<Row>
  {
    if n <= |l| then l[n..] else []
  }

  /** row_back: the slot of one of the two rings. */
  function RowBack(t: Text, back: nat): Row
    requires TextOk(t) && back <= t.history + t.count
  {
    if back <= t.history then t.ring[(t.origin + 256 - back) % 256]
    else t.deep[(t.head + 4096 - t.count + (t.count - (back - t.history))) % 4096]
  }

  /** It is the row that many lines above the live screen, whichever ring holds it. */
  lemma RowBackIs(t: Text, back: nat)
    requires TextOk(t) && back <= t.history + t.count
    ensures RowBack(t, back) == Lines(t)[t.history + t.count - back]
  {
    LinesAt(t, t.history + t.count - back);
  }

  /** The row below the screen, kept in the deeper ring when it is history that would be lost. */
  function Preserved(t: Text): Text
    requires TextOk(t)
  {
    if |t.deep| > 0 && t.history >= 256 - t.rows
    then t.(deep := t.deep[t.head := t.ring[(t.origin + t.rows) % 256]], head := (t.head + 1) % 4096,
            count := if t.count < 4096 then t.count + 1 else t.count)
    else t
  }

  /** The row below the screen made blank and taken as the bottom of it. */
  function Turned(t: Text, blank: Row): Text
    requires |t.ring| == 256
  {
    t.(ring := t.ring[(t.origin + t.rows) % 256 := blank], origin := (t.origin + 1) % 256,
       history := if t.history < 256 - t.rows then t.history + 1 else t.history)
  }

  /** The rows after a scroll. */
  function Scrolled(t: Text, blank: Row): Text
    requires TextOk(t)
  {
    Turned(Preserved(t), blank)
  }

  /** A scroll adds one blank line at the end and loses only the oldest line, and that only
      when the history is full. */
  lemma ScrollLines(t: Text, blank: Row)
    requires TextOk(t)
    ensures TextOk(Scrolled(t, blank))
    ensures Lines(Scrolled(t, blank))
            == (if t.history + t.count < Capacity(t) then Lines(t) else Lines(t)[1..]) + [blank]
  {
    var u := Scrolled(t, blank);
    ScrollSizes(t, blank);
    var want := (if t.history + t.count < Capacity(t) then Lines(t) else Lines(t)[1..]) + [blank];
    forall i | 0 <= i < |want|
      ensures Lines(u)[i] == want[i]
    {
      ScrolledLine(t, blank, i);
    }
  }

  lemma ScrolledLine(t: Text, blank: Row, i: nat)
    requires TextOk(t) && TextOk(Scrolled(t, blank)) && i < |Lines(Scrolled(t, blank))|
    ensures var at := if t.history + t.count < Capacity(t) then i else i + 1;
      Lines(Scrolled(t, blank))[i] == if at < |Lines(t)| then Lines(t)[at] else blank
  {
    var u := Scrolled(t, blank);
    LinesAt(u, i);
    var at := if t.history + t.count < Capacity(t) then i else i + 1;
    if at < |Lines(t)| {
      LinesAt(t, at);
    }
    if i < u.count {
      ScrolledDeep(t, blank, i);
    } else {
      ScrolledRing(t, blank, i - u.count);
    }
  }

  lemma ScrolledOk(t: Text, blank: Row)
    requires TextOk(t)
    ensures TextOk(Scrolled(t, blank))
  {
  }

  lemma ScrolledDeep(t: Text, blank: Row, j: nat)
    requires TextOk(t) && TextOk(Scrolled(t, blank)) && j < Scrolled(t, blank).count
    ensures var at := if t.count == 4096 then j + 1 else j;
      DeepRow(Scrolled(t, blank), j) == if at < t.count then DeepRow(t, at) else RingRow(t, -(t.history as int))
  {
    var u := Scrolled(t, blank);
    if |t.deep| > 0 && t.history >= 256 - t.rows {
      assert u.deep == t.deep[t.head := t.ring[(t.origin + t.rows) % 256]];
      if j == u.count - 1 {
        NewestIndex(t.head, u.count);
      } else {
        DeepIndex(t.head, t.count, u.count, j);
      }
    }
  }

  lemma NewestIndex(head: nat, count: nat)
    requires head < 4096 && 1 <= count <= 4096
    ensures ((head + 1) % 4096 + 4096 - count + (count - 1)) % 4096 == head
  {
  }

  lemma DeepIndex(head: nat, count: nat, after: nat, j: nat)
    requires head < 4096 && count <= 4096 && after == (if count < 4096 then count + 1 else count) && j < after - 1
    ensures ((head + 1) % 4096 + 4096 - after + j) % 4096 == (head + 4096 - count + (if count == 4096 then j + 1 else j)) % 4096
    ensures (head + 4096 - count + (if count == 4096 then j + 1 else j)) % 4096 != head
  {
  }

  lemma ScrolledRing(t: Text, blank: Row, i: nat)
    requires TextOk(t) && TextOk(Scrolled(t, blank)) && i < Scrolled(t, blank).history + t.rows
    ensures RingRow(Scrolled(t, blank), i - Scrolled(t, blank).history)
            == (var at := if t.history < 256 - t.rows then i else i + 1;
                if at < t.history + t.rows then RingRow(t, at - t.history) else blank)
  {
    var u := Scrolled(t, blank);
    var k := i - u.history;
    TurnIndex(t.origin, t.rows, k);
    assert u.ring == t.ring[(t.origin + t.rows) % 256 := blank];
  }

  lemma TurnIndex(origin: nat, rows: nat, k: int)
    requires origin < 256 && 1 <= rows <= 128 && rows - 256 <= k < rows
    ensures ((origin + 1) % 256 + 256 + k) % 256 == (origin + 256 + (k + 1)) % 256
    ensures (origin + 256 + (k + 1)) % 256 == (origin + rows) % 256 <==> k + 1 == rows
  {
    NextTurn(origin, 256 + k);
    SameTurn(origin, 256 + k + 1, rows);
  }

  lemma NextTurn(origin: nat, k: nat)
    requires origin < 256
    ensures ((origin + 1) % 256 + k) % 256 == (origin + k + 1) % 256
  {
    if origin == 255 {
      assert (origin + k + 1) % 256 == (k + 256) % 256;
    }
  }

  /** Two steps that come to the same place differ by whole turns. */
  lemma SameTurn(origin: nat, a: nat, b: nat)
    requires b <= 256 && b < a + 256 && a <= b + 256
    ensures (origin + a) % 256 == (origin + b) % 256 <==> a == b || a == b + 256
  {
    var q, p := (origin + a) / 256, (origin + b) / 256;
    if (origin + a) % 256 == (origin + b) % 256 {
      assert a - b == 256 * (q - p);
    }
  }

  lemma BlankLines(t: Text, blank: Row)
    requires TextOk(t) && t.history == 0 && t.count == 0 && forall r :: 0 <= r < 256 ==> t.ring[r] == blank
    ensures Lines(t) == seq(t.rows, r => blank)
  {
    forall i | 0 <= i < t.rows
      ensures Lines(t)[i] == blank
    {
      LinesAt(t, i);
    }
  }

  function WithRow(t: Text, row: nat, r: Row): Text
    requires TextOk(t)
  {
    t.(ring := t.ring[(t.origin + row) % 256 := r])
  }

  /** Writing a row of the live screen writes that line and no other. */
  lemma WriteLines(t: Text, row: nat, r: Row)
    requires TextOk(t) && row < t.rows
    ensures TextOk(WithRow(t, row, r)) && Lines(WithRow(t, row, r)) == Lines(t)[t.count + t.history + row := r]
  {
    var u := WithRow(t, row, r);
    forall i | 0 <= i < |Lines(t)|
      ensures Lines(u)[i] == if i == t.count + t.history + row then r else Lines(t)[i]
    {
      RowWritten(t, row, r, i);
    }
  }

  lemma RowWritten(t: Text, row: nat, r: Row, i: nat)
    requires TextOk(t) && row < t.rows && i < |Lines(t)|
    ensures TextOk(WithRow(t, row, r)) && i < |Lines(WithRow(t, row, r))|
    ensures Lines(WithRow(t, row, r))[i] == if i == t.count + t.history + row then r else Lines(t)[i]
  {
    var u := WithRow(t, row, r);
    LinesAt(t, i);
    LinesAt(u, i);
    if i >= t.count {
      RingWritten(t, row, r, i - t.count - t.history);
    }
  }

  lemma RingWritten(t: Text, row: nat, r: Row, k: int)
    requires TextOk(t) && row < t.rows && -256 < k < t.rows && t.rows - 256 <= k
    ensures TextOk(WithRow(t, row, r)) && RingRow(WithRow(t, row, r), k) == if k == row then r else RingRow(t, k)
  {
    OtherIndex(t.origin, row, k, t.rows);
  }

  lemma OtherIndex(origin: nat, row: nat, k: int, rows: nat)
    requires origin < 256 && row < rows <= 128 && rows - 256 <= k < rows
    ensures (origin + 256 + k) % 256 == (origin + row) % 256 <==> k == row
  {
  }

  /** The rows a view that far back shows. */
  function Window(t: Text, back: nat): (w: seq<Row>)
    requires TextOk(t) && back <= t.history + t.count
    ensures |w| == t.rows
  {
    Part(Lines(t), t.history + t.count - back, t.rows)
  }

  function Part(l: seq<Row>, from: nat, n: nat): (w: seq<Row>)
    requires from + n <= |l|
    ensures |w| == n
  {
    l[from..from + n]
  }

  lemma PartGrown(l: seq<Row>, last: Row, from: nat, n: nat)
    requires from + n <= |l|
    ensures Part(l + [last], from, n) == Part(l, from, n)
  {
  }

  lemma PartShifted(l: seq<Row>, from: nat, n: nat)
    requires 1 <= from && from + n <= |l|
    ensures Part(l[1..], from - 1, n) == Part(l, from, n)
  {
  }

  /** A view that has history left above it shows the same rows after a scroll, whichever
      rings they are in before and after; one at the very top of a full history creeps by
      the line that was lost. */
  lemma ViewStays(t: Text, back: nat, blank: Row)
    requires TextOk(t) && 0 < back <= t.history + t.count
    ensures TextOk(Scrolled(t, blank))
    ensures back < Scrolled(t, blank).history + Scrolled(t, blank).count ==>
      Window(Scrolled(t, blank), back + 1) == Window(t, back)
    ensures back >= Scrolled(t, blank).history + Scrolled(t, blank).count ==>
      back == Capacity(t) && Window(Scrolled(t, blank), back) == Part(Lines(t), 1, t.rows)
  {
    ScrollLines(t, blank);
    ScrollSizes(t, blank);
    var u := Scrolled(t, blank);
    PartStays(Lines(t), Lines(u), blank, t.history + t.count, Capacity(t), back, t.rows);
  }

  lemma ViewShows(t: Text, u: Text, back: nat, after: nat, blank: Row, w: seq<Row>)
    requires TextOk(t) && TextOk(u) && u == Scrolled(t, blank) && Shows(t, back, w)
    requires after == if 0 < back < u.history + u.count then back + 1 else back
    ensures 0 < back < u.history + u.count ==> Shows(u, after, w)
  {
    if back > 0 {
      ViewStays(t, back, blank);
      ScrollSizes(t, blank);
    }
  }

  lemma ScrollSizes(t: Text, blank: Row)
    requires TextOk(t)
    ensures TextOk(Scrolled(t, blank))
    ensures Scrolled(t, blank).history + Scrolled(t, blank).count
            == (if t.history + t.count < Capacity(t) then t.history + t.count + 1 else t.history + t.count)
    ensures t.history + t.count <= Capacity(t)
  {
  }

  lemma PartStays(l: seq<Row>, m: seq<Row>, last: Row, size: nat, cap: nat, back: nat, rows: nat)
    requires |l| == size + rows && 0 < back <= size <= cap && 1 <= rows
    requires m == (if size < cap then l else l[1..]) + [last]
    ensures |m| == (if size < cap then size + 1 else size) + rows
    ensures size < cap ==> Part(m, size + 1 - (back + 1), rows) == Part(l, size - back, rows)
    ensures size == cap && back < size ==> Part(m, size - (back + 1), rows) == Part(l, size - back, rows)
    ensures size == cap && back == size ==> Part(m, 0, rows) == Part(l, 1, rows)
  {
    if size < cap {
      PartGrown(l, last, size - back, rows);
    } else if back < size {
      PartShifted(l, size - back, rows);
      PartGrown(l[1..], last, size - back - 1, rows);
    } else {
      PartShifted(l, 1, rows);
      PartGrown(l[1..], last, 0, rows);
    }
  }

  // ----- Whole runs -----

  /** What a program does to the screen: a scroll, or a row of the live screen written. */
  datatype Step = Scrolls(blank: Row) | Writes(row: nat, r: Row)

  function Stepped(t: Text, s: Step): Text
    requires TextOk(t)
  {
    match s
    case Scrolls(blank) => Scrolled(t, blank)
    case Writes(row, r) => if row < t.rows then WithRow(t, row, r) else t
  }

  lemma SteppedOk(t: Text, s: Step)
    requires TextOk(t)
    ensures TextOk(Stepped(t, s)) && Stepped(t, s).rows == t.rows && Capacity(Stepped(t, s)) == Capacity(t)
  {
    if s.Scrolls? {
      ScrolledOk(t, s.blank);
    }
  }

  function Run(t: Text, steps: seq<Step>): (u: Text)
    requires TextOk(t)
    ensures TextOk(u) && u.rows == t.rows && Capacity(u) == Capacity(t)
    decreases |steps|
  {
    if steps == [] then t else SteppedOk(t, steps[0]); Run(Stepped(t, steps[0]), steps[1..])
  }

  /** The same on a text that never loses a line. */
  function Typed(all: seq<Row>, rows: nat, s: Step): (l: seq<Row>)
    requires rows <= |all|
    ensures |l| >= |all|
  {
    match s
    case Scrolls(blank) => all + [blank]
    case Writes(row, r) => if row < rows then all[|all| - rows + row := r] else all
  }

  function AllTyped(all: seq<Row>, rows: nat, steps: seq<Step>): (l: seq<Row>)
    requires rows <= |all|
    ensures rows <= |l|
    decreases |steps|
  {
    if steps == [] then all else AllTyped(Typed(all, rows, steps[0]), rows, steps[1..])
  }

  /** The last n lines, or all where there are fewer. */
  function Newest(all: seq<Row>, n: nat): seq<Row>
  {
    if n <= |all| then all[|all| - n..] else all
  }

  /** After every run the two rings hold the newest lines of all that was ever typed, as many
      as there is room for. */
  lemma {:induction false} HistoryOfRun(t: Text, all: seq<Row>, steps: seq<Step>)
    requires TextOk(t) && t.rows <= |all| && Lines(t) == Newest(all, Capacity(t) + t.rows)
    ensures Lines(Run(t, steps)) == Newest(AllTyped(all, t.rows, steps), Capacity(t) + t.rows)
    decreases |steps|
  {
    if steps != [] {
      SteppedOk(t, steps[0]);
      HistoryOfStep(t, all, steps[0]);
      HistoryOfRun(Stepped(t, steps[0]), Typed(all, t.rows, steps[0]), steps[1..]);
    }
  }

  lemma HistoryOfStep(t: Text, all: seq<Row>, s: Step)
    requires TextOk(t) && t.rows <= |all| && Lines(t) == Newest(all, Capacity(t) + t.rows)
    ensures TextOk(Stepped(t, s)) && Lines(Stepped(t, s)) == Newest(Typed(all, t.rows, s), Capacity(t) + t.rows)
  {
    match s
    case Scrolls(blank) =>
      HistoryOfScroll(t, all, blank);
    case Writes(row, r) =>
      WrittenOrNot(t, all, row, r, Stepped(t, s), Typed(all, t.rows, s));
  }

  lemma WrittenOrNot(t: Text, all: seq<Row>, row: nat, r: Row, u: Text, now: seq<Row>)
    requires TextOk(t) && t.rows <= |all| && Lines(t) == Newest(all, Capacity(t) + t.rows)
    requires u == if row < t.rows then WithRow(t, row, r) else t
    requires now == if row < t.rows then all[|all| - t.rows + row := r] else all
    ensures TextOk(u) && Lines(u) == Newest(now, Capacity(t) + t.rows)
  {
    if row < t.rows {
      HistoryOfWrite(t, all, row, r);
    }
  }

  lemma HistoryOfScroll(t: Text, all: seq<Row>, blank: Row)
    requires TextOk(t) && t.rows <= |all| && Lines(t) == Newest(all, Capacity(t) + t.rows)
    ensures TextOk(Scrolled(t, blank)) && Lines(Scrolled(t, blank)) == Newest(all + [blank], Capacity(t) + t.rows)
  {
    ScrollSizes(t, blank);
    ScrollLines(t, blank);
    NewestGrown(all, blank, Capacity(t) + t.rows);
  }

  lemma HistoryOfWrite(t: Text, all: seq<Row>, row: nat, r: Row)
    requires TextOk(t) && row < t.rows <= |all| && Lines(t) == Newest(all, Capacity(t) + t.rows)
    ensures TextOk(WithRow(t, row, r)) && Lines(WithRow(t, row, r)) == Newest(all[|all| - t.rows + row := r], Capacity(t) + t.rows)
  {
    WriteLines(t, row, r);
    NewestWritten(all, Capacity(t) + t.rows, t.rows - row, r);
  }

  lemma NewestGrown(all: seq<Row>, last: Row, n: nat)
    requires n > 0
    ensures Newest(all + [last], n) == (if |Newest(all, n)| < n then Newest(all, n) else Newest(all, n)[1..]) + [last]
  {
  }

  lemma NewestWritten(all: seq<Row>, n: nat, up: nat, r: Row)
    requires 1 <= up <= n && up <= |all|
    ensures Newest(all[|all| - up := r], n) == Newest(all, n)[|Newest(all, n)| - up := r]
  {
  }

  function Rise(s: Step): nat
  {
    if s.Scrolls? then 1 else 0
  }

  /** How many scrolls there are. */
  function Risen(steps: seq<Step>): nat
  {
    if steps == [] then 0 else Rise(steps[0]) + Risen(steps[1..])
  }

  /** A view that far back shows those rows. */
  predicate Shows(t: Text, back: nat, w: seq<Row>)
    requires TextOk(t)
  {
    back <= t.history + t.count && Window(t, back) == w
  }

  /** A view of history only shows the same rows through a whole run, having followed every
      scroll, for as long as its rows can be kept. */
  lemma {:induction false} ViewOfRun(t: Text, back: nat, steps: seq<Step>, w: seq<Row>, u: Text, n: nat)
    requires TextOk(t) && t.rows <= back && Shows(t, back, w) && n == back + Risen(steps) <= Capacity(t)
    requires u == Run(t, steps)
    ensures Shows(u, n, w)
    decreases |steps|
  {
    if steps != [] {
      ViewOfStep(t, back, steps[0], w);
      ViewOfRun(Stepped(t, steps[0]), back + Rise(steps[0]), steps[1..], w, u, n);
    } else {
      assert u == t && n == back;
    }
  }

  lemma ViewOfStep(t: Text, back: nat, s: Step, w: seq<Row>)
    requires TextOk(t) && t.rows <= back && Shows(t, back, w) && back + Rise(s) <= Capacity(t)
    ensures var u := Stepped(t, s); TextOk(u) && u.rows == t.rows && Capacity(u) == Capacity(t) && Shows(u, back + Rise(s), w)
  {
    SteppedOk(t, s);
    if s.Scrolls? {
      ScrollSizes(t, s.blank);
      ViewShows(t, Stepped(t, s), back, back + 1, s.blank, w);
    } else {
      if s.row < t.rows {
        ViewOfWrite(t, back, s.row, s.r);
      }
    }
  }

  lemma ViewOfWrite(t: Text, back: nat, row: nat, r: Row)
    requires TextOk(t) && t.rows <= back <= t.history + t.count && row < t.rows
    ensures TextOk(WithRow(t, row, r)) && Window(WithRow(t, row, r), back) == Window(t, back)
  {
    WriteLines(t, row, r);
    PartKept(Lines(t), t.history + t.count - back, t.rows, t.history + t.count + row, r);
  }

  lemma PartKept(l: seq<Row>, from: nat, n: nat, i: nat, r: Row)
    requires from + n <= i < |l|
    ensures Part(l[i := r], from, n) == Part(l, from, n)
  {
  }

  // ----- The generator -----

  ghost function RowOf(a: array2<Cell>, r: nat): (l: Row)
    requires r < a.Length0
    reads a
    ensures |l| == a.Length1
  {
    seq(a.Length1, c requires 0 <= c < a.Length1 reads a => a[r, c])
  }

  ghost function RowsOf(a: array2<Cell>): (l: seq<Row>)
    reads a
    ensures |l| == a.Length0
  {
    seq(a.Length0, r requires 0 <= r < a.Length0 reads a => RowOf(a, r))
  }

  /** A row copied cell by cell from one table to another. */
  method CopyRow(dst: array2<Cell>, d: nat, src: array2<Cell>, s: nat)
    requires dst != src && d < dst.Length0 && s < src.Length0 && dst.Length1 == src.Length1
    modifies dst
    ensures RowsOf(dst) == old(RowsOf(dst))[d := RowOf(src, s)]
  {
    ghost var was := RowsOf(dst);
    for i := 0 to dst.Length1
      invariant forall r, c :: 0 <= r < dst.Length0 && 0 <= c < dst.Length1 ==>
        dst[r, c] == if r == d && c < i then src[s, c] else was[r][c]
    {
      dst[d, i] := src[s, i];
    }
    assert RowOf(dst, d) == RowOf(src, s);
    forall r | 0 <= r < dst.Length0 && r != d
      ensures RowOf(dst, r) == was[r]
    {
    }
  }

  function CellSet(r: Row, c: nat, x: Cell): Row
  {
    if c < |r| then r[c := x] else r
  }

  function BlankRow(cols: nat, attr: byte): (r: Row)
    ensures |r| == cols
  {
    seq(cols, c => Cell(0, attr))
  }

  /** The columns from..to of a row blanked. */
  function Blanked(r: Row, from: nat, to: nat, attr: byte): Row
  {
    seq(|r|, c requires 0 <= c < |r| => if from <= c <= to then Cell(0, attr) else r[c])
  }

  function FromRing(ring: seq<Row>, origin: nat, back: nat, rows: nat): (v: seq<Row>)
    requires |ring| == 256 && back <= 256
    ensures |v| == rows
  {
    seq(rows, r requires 0 <= r < rows => ring[(origin + 256 - back + r) % 256])
  }

  /** A view no further back than the ring reaches is read straight from the ring. */
  lemma WindowInRing(t: Text, back: nat)
    requires TextOk(t) && back <= t.history
    ensures Window(t, back) == FromRing(t.ring, t.origin, back, t.rows)
  {
    forall r | 0 <= r < t.rows
      ensures Window(t, back)[r] == t.ring[(t.origin + 256 - back + r) % 256]
    {
      LinesAt(t, t.history + t.count - back + r);
    }
  }

  /** A view further back than that shows no row of the live screen. */
  lemma WindowPastRing(t: Text, back: nat, r: nat)
    requires TextOk(t) && t.history < back <= t.history + t.count && r < t.rows
    ensures r <= back - 1 && Window(t, back)[r] == RowBack(t, back - r)
  {
    RowBackIs(t, back - r);
  }

  lemma OtherSlot(origin: nat, row: nat, back: nat, rows: nat)
    requires origin < 256 && row < rows <= 128 && 1 <= back
    ensures back <= 256 - rows ==> (origin + 256 - back) % 256 != (origin + row) % 256
  {
  }

  lemma WindowKept(t: Text, row: nat, r: Row, back: nat)
    requires TextOk(t) && row < t.rows && t.history < back <= t.history + t.count
    ensures TextOk(WithRow(t, row, r)) && Window(WithRow(t, row, r), back) == Window(t, back)
  {
    var u := WithRow(t, row, r);
    forall i | 0 <= i < t.rows
      ensures Window(u, back)[i] == Window(t, back)[i]
    {
      WindowPastRing(t, back, i);
      WindowPastRing(u, back, i);
      OtherSlot(t.origin, row, back - i, t.rows);
    }
  }

  /** Rows as they are read one by one for a view that far back. */
  ghost predicate Assembled(t: Text, back: nat, w: seq<Row>)
  {
    TextOk(t) && back <= t.history + t.count && |w| == t.rows
    && forall r {:trigger w[r]} :: 0 <= r < t.rows ==> r < back && w[r] == RowBack(t, back - r)
  }

  lemma AssembledAt(t: Text, back: nat, w: seq<Row>, r: nat)
    requires Assembled(t, back, w) && r < t.rows
    ensures r < back && w[r] == RowBack(t, back - r)
  {
  }

  lemma PrefixCopied(v: seq<Row>, w: seq<Row>, r: nat)
    requires r < |v| == |w| && v[..r] == w[..r]
    ensures v[r := w[r]][..r + 1] == w[..r + 1]
  {
    assert w[..r + 1] == w[..r] + [w[r]];
  }

  lemma WindowAssembled(t: Text, back: nat, w: seq<Row>)
    requires TextOk(t) && t.history < back <= t.history + t.count && w == Window(t, back)
    ensures Assembled(t, back, w)
  {
    forall r {:trigger w[r]} | 0 <= r < t.rows
      ensures r < back && w[r] == RowBack(t, back - r)
    {
      WindowPastRing(t, back, r);
    }
  }

  class Generator {
    const rows: nat
    const cols: nat
    const cells: array2<Cell>
    const deep: array2?<Cell>
    const viewBuf: array2<Cell>
    var rowOrigin: nat
    var viewBack: nat
    var history: nat
    var deepHead: nat
    var deepCount: nat
    var viewDeep: bool

    ghost function Tables(): set<object>
      reads this
    {
      {cells, viewBuf} + if deep == null then {} else {deep}
    }

    /** What the two rings hold. */
    ghost function Kept(): Text
      reads this, cells, if deep == null then {} else {deep}
    {
      Text(rows, RowsOf(cells), rowOrigin, history, if deep == null then [] else RowsOf(deep), deepHead, deepCount)
    }

    ghost predicate Shapes()
      reads this, cells, if deep == null then {} else {deep}
    {
      && TextOk(Kept()) && cells.Length1 == cols >= 1
      && viewBuf.Length0 == rows && viewBuf.Length1 == cols && viewBuf != cells
      && (deep != null ==> deep.Length0 == 4096 && deep.Length1 == cols && deep != cells && deep != viewBuf)
    }

    /** view_at for each row: what the renderers read. */
    ghost function View(): (v: seq<Row>)
      requires cells.Length0 == 256 && (!viewDeep ==> viewBack <= 256)
      reads this, cells, viewBuf
    {
      if viewDeep then RowsOf(viewBuf) else FromRing(RowsOf(cells), rowOrigin, viewBack, rows)
    }

    /** A view past the ring has its rows assembled, and they are the ones the view names. */
    ghost predicate Valid()
      reads this, Tables()
    {
      && Shapes() && viewBack <= history + deepCount && (viewDeep <==> viewBack > history)
      && (viewDeep ==> RowsOf(viewBuf) == Window(Kept(), viewBack))
    }

    /** What is shown is the part of the text that the view names. */
    lemma ViewIs()
      requires Valid()
      ensures View() == Window(Kept(), viewBack)
    {
      if !viewDeep {
        WindowInRing(Kept(), viewBack);
      }
    }

    lemma CellWritten(was: seq<Row>, r: nat, c: nat, x: Cell)
      requires |was| == cells.Length0 && r < |was| && c < cells.Length1 && (forall i :: 0 <= i < |was| ==> |was[i]| == cells.Length1)
      requires forall i, j :: 0 <= i < cells.Length0 && 0 <= j < cells.Length1 ==>
        cells[i, j] == if i == r && j == c then x else was[i][j]
      ensures RowsOf(cells) == was[r := CellSet(was[r], c, x)]
    {
      forall i | 0 <= i < |was|
        ensures RowOf(cells, i) == was[r := CellSet(was[r], c, x)][i]
      {
      }
    }

    /** A row of the live screen written: a view of older rows does not show it. */
    lemma StillShown(was: Text, row: nat, r: Row)
      requires Shapes() && TextOk(was) && row < was.rows && viewBack <= history + deepCount && (viewDeep <==> viewBack > history)
      requires Kept() == WithRow(was, row, r)
      requires viewDeep ==> RowsOf(viewBuf) == Window(was, viewBack)
      ensures Valid()
    {
      if viewDeep {
        WindowKept(was, row, r, viewBack);
      }
    }

    /** ubiqos_chargen_init; `psram` says whether there is memory for the deeper ring. */
    constructor (rows: nat, cols: nat, psram: bool, attr: byte)
      requires 1 <= rows <= 128 && 1 <= cols
      ensures Valid() && viewBack == 0 && history == 0 && deepCount == 0 && fresh(Tables())
      ensures this.rows == rows && this.cols == cols && (deep != null <==> psram)
      ensures Lines(Kept()) == seq(rows, r => BlankRow(cols, attr))
    {
      this.rows, this.cols := rows, cols;
      cells := new Cell[256, cols]((r, c) => Cell(0, attr));
      viewBuf := new Cell[rows, cols]((r, c) => Cell(0, 0));
      deep := null;
      if psram {
        deep := new Cell[4096, cols]((r, c) => Cell(0, 0));
      }
      rowOrigin, viewBack, history, deepHead, deepCount, viewDeep := 0, 0, 0, 0, 0, false;
      new;
      ghost var blank := BlankRow(cols, attr);
      forall r | 0 <= r < 256
        ensures RowOf(cells, r) == blank
      {
      }
      BlankLines(Kept(), blank);
    }

    /** ubiqos_chargen_put: one cell of the live screen, whatever the view shows. */
    method Put(row: nat, col: nat, glyph: byte, attr: byte)
      requires Valid()
      modifies cells
      ensures Valid()
      ensures Kept() == if row >= rows || col >= cols then old(Kept())
        else WithRow(old(Kept()), row, CellSet(old(Kept()).ring[(rowOrigin + row) % 256], col, Cell(glyph, attr)))
    {
      if row >= rows || col >= cols {
        return;
      }
      ghost var was := Kept();
      var r := (rowOrigin + row) % 256;
      cells[r, col] := Cell(glyph, attr);
      CellWritten(was.ring, r, col, Cell(glyph, attr));
      StillShown(was, row, CellSet(was.ring[r], col, Cell(glyph, attr)));
    }

    /** ubiqos_chargen_fill. Row `rows` is the one below the screen, which only a scroll may
        blank: it is the oldest row of a full ring. */
    method Fill(row: nat, from: nat, to: nat, attr: byte)
      requires Shapes()
      modifies cells
      ensures Shapes() && Kept() == if row > rows || from > to then old(Kept())
        else WithRow(old(Kept()), row, Blanked(old(Kept()).ring[(rowOrigin + row) % 256], from, to, attr))
    {
      if row > rows || from > to {
        return;
      }
      var last := if to >= cols then cols - 1 else to;
      var r := (rowOrigin + row) % 256;
      ghost var was := RowsOf(cells);
      var col := from;
      while col <= last
        invariant from <= col && (from <= last + 1 ==> col <= last + 1) && (from > last + 1 ==> col == from)
        invariant forall i, j :: 0 <= i < 256 && 0 <= j < cols ==>
          cells[i, j] == if i == r && from <= j < col then Cell(0, attr) else was[i][j]
      {
        cells[r, col] := Cell(0, attr);
        col := col + 1;
      }
      forall i | 0 <= i < 256
        ensures RowOf(cells, i) == was[r := Blanked(was[r], from, to, attr)][i]
      {
      }
      assert RowsOf(cells) == was[r := Blanked(was[r], from, to, attr)];
    }

    /** Erasing on the live screen: an older view stays. */
    method FillLive(row: nat, from: nat, to: nat, attr: byte)
      requires Valid() && row < rows
      modifies cells
      ensures Valid()
      ensures Kept() == if from > to then old(Kept())
        else WithRow(old(Kept()), row, Blanked(old(Kept()).ring[(rowOrigin + row) % 256], from, to, attr))
    {
      ghost var was := Kept();
      Fill(row, from, to, attr);
      if from <= to {
        StillShown(was, row, Blanked(was.ring[(rowOrigin + row) % 256], from, to, attr));
      }
    }

    /** row_back: which table and which row of it. */
    method RowBackAt(back: nat) returns (table: array2<Cell>, slot: nat)
      requires Shapes() && back <= history + deepCount
      ensures slot < table.Length0 && table.Length1 == cols && (table == cells || table == deep)
      ensures RowOf(table, slot) == RowBack(Kept(), back)
    {
      if back <= history {
        return cells, (rowOrigin + 256 - back) % 256;
      }
      var d := back - history;
      var j := deepCount - d;
      return deep, (deepHead + 4096 - deepCount + j) % 4096;
    }

    /** view_at: the table and the row of it that a row of the view is read from. */
    method ViewAt(row: nat) returns (table: array2<Cell>, slot: nat)
      requires Valid() && row < rows
      ensures slot < table.Length0 && table.Length1 == cols && RowOf(table, slot) == View()[row]
    {
      if viewDeep {
        return viewBuf, row;
      }
      return cells, (rowOrigin + 256 - viewBack + row) % 256;
    }

    /** view_rebuild */
    method ViewRebuild()
      requires Shapes() && viewBack <= history + deepCount
      modifies this`viewDeep, viewBuf
      ensures Valid() && Kept() == old(Kept())
    {
      if viewBack <= history {
        viewDeep := false;
        return;
      }
      ghost var w := Window(Kept(), viewBack);
      WindowAssembled(Kept(), viewBack, w);
      Assemble(w);
      viewDeep := true;
    }

    /** Copying the rows of a view that is past the ring. */
    method Assemble(ghost w: seq<Row>)
      requires Shapes() && Assembled(Kept(), viewBack, w)
      modifies viewBuf
      ensures RowsOf(viewBuf) == w
    {
      ghost var t := Kept();
      for r := 0 to rows
        invariant Kept() == t && Shapes()
        invariant RowsOf(viewBuf)[..r] == w[..r]
      {
        AssembledAt(t, viewBack, w, r);
        ghost var v := RowsOf(viewBuf);
        CopyBack(r, viewBack - r);
        PrefixCopied(v, w, r);
      }
    }

    /** The row that many lines above the screen copied to a row of the view. */
    method CopyBack(r: nat, back: nat)
      requires Shapes() && r < rows && back <= history + deepCount
      modifies viewBuf
      ensures Shapes() && Kept() == old(Kept()) && RowsOf(viewBuf) == old(RowsOf(viewBuf))[r := RowBack(Kept(), back)]
    {
      var src, slot := RowBackAt(back);
      CopyRow(viewBuf, r, src, slot);
    }

    /** ubiqos_chargen_history: how far back there is to go. */
    function History(): (n: nat)
      requires Shapes()
      reads this, cells, if deep == null then {} else {deep}
      ensures n == |Lines(Kept())| - rows
    {
      (if history < 256 - rows then history else 256 - rows) + deepCount
    }

    /** ubiqos_chargen_view_move, for a distance whose difference fits the machine's words. */
    method ViewMove(distance: int)
      requires Valid() && viewBack - distance < 0x8000_0000
      modifies this`viewBack, this`viewDeep, viewBuf
      ensures Valid() && Kept() == old(Kept())
      ensures viewBack == if old(viewBack) - distance < 0 then 0
                          else if old(viewBack) - distance > History() then History() else old(viewBack) - distance
    {
      var back := viewBack - distance;
      var cap := History();
      if back < 0 {
        back := 0;
      }
      if back > cap {
        back := cap;
      }
      viewBack := back;
      ViewRebuild();
    }

    /** ubiqos_chargen_view_end */
    method ViewEnd()
      requires Valid()
      modifies this`viewBack, this`viewDeep
      ensures Valid() && viewBack == 0 && Kept() == old(Kept()) && View() == Lines(Kept())[History()..]
    {
      viewBack, viewDeep := 0, false;
      ViewIs();
    }

    lemma ViewIsTop()
      requires Valid() && viewBack == history + deepCount
      ensures View() == Lines(Kept())[..rows]
    {
      ViewIs();
    }

    /** ubiqos_chargen_view_home */
    method ViewHome()
      requires Valid()
      modifies this`viewBack, this`viewDeep, viewBuf
      ensures Valid() && viewBack == History() && Kept() == old(Kept()) && View() == Lines(Kept())[..rows]
    {
      viewBack := History();
      ViewRebuild();
      ViewIsTop();
    }

    /** ubiqos_chargen_scroll. The text gains a blank line at its end and loses its oldest
        only when the history is full; a view that had history above it shows what it did. */
    method Scroll(attr: byte)
      requires Valid()
      modifies this`rowOrigin, this`viewBack, this`history, this`deepHead, this`deepCount, this`viewDeep, Tables()
      ensures Valid() && Kept() == Scrolled(old(Kept()), BlankRow(cols, attr))
      ensures var was := old(Lines(Kept()));
        Lines(Kept()) == (if |was| - rows < Capacity(old(Kept())) then was else was[1..]) + [BlankRow(cols, attr)]
      ensures viewBack == if 0 < old(viewBack) < History() then old(viewBack) + 1 else old(viewBack)
      ensures 0 < old(viewBack) < History() ==> View() == old(View())
    {
      ScrollLines(Kept(), BlankRow(cols, attr));
      ViewWas(View());
      ScrollShowing(attr, Kept(), View());
    }

    lemma ViewWas(shown: seq<Row>)
      requires Valid() && shown == View()
      ensures TextOk(Kept()) && Shows(Kept(), viewBack, shown)
    {
      ViewIs();
    }

    /** After a scroll that the view has followed. */
    lemma ViewFollowed(t: Text, back: nat, blank: Row, shown: seq<Row>)
      requires Valid() && TextOk(t) && Kept() == Scrolled(t, blank) && Shows(t, back, shown)
      requires viewBack == if 0 < back < History() then back + 1 else back
      ensures 0 < back < History() ==> View() == shown
    {
      ViewShows(t, Kept(), back, viewBack, blank, shown);
      ViewIs();
    }

    /** The scroll of the rows, and then the view that follows them. */
    method ScrollShowing(attr: byte, ghost t: Text, ghost shown: seq<Row>)
      requires Valid() && t == Kept() && TextOk(t) && Shows(t, viewBack, shown)
      modifies this`rowOrigin, this`viewBack, this`history, this`deepHead, this`deepCount, this`viewDeep, Tables()
      ensures Valid() && Kept() == Scrolled(t, BlankRow(cols, attr))
      ensures viewBack == if 0 < old(viewBack) < History() then old(viewBack) + 1 else old(viewBack)
      ensures 0 < old(viewBack) < History() ==> View() == shown
    {
      ghost var back := viewBack;
      ScrollRows(attr);
      ViewFollow();
      ViewFollowed(t, back, BlankRow(cols, attr), shown);
    }

    /** The view of a scroll, after the rows have moved. */
    method ViewFollow()
      requires Shapes() && viewBack <= history + deepCount && (viewDeep ==> viewBack > 0) && (viewBack == 0 || viewDeep || viewBack <= history)
      modifies this`viewBack, this`viewDeep, viewBuf
      ensures Valid() && Kept() == old(Kept())
      ensures viewBack == if 0 < old(viewBack) < History() then old(viewBack) + 1 else old(viewBack)
    {
      if viewBack > 0 {
        var cap := History();
        if viewBack < cap {
          viewBack := viewBack + 1;
        }
        if viewDeep || viewBack > history {
          ViewRebuild();
        }
      }
    }

    /** The rows of a scroll, before the view follows. */
    method ScrollRows(attr: byte)
      requires Valid()
      modifies this`rowOrigin, this`history, this`deepHead, this`deepCount, cells, if deep == null then {} else {deep}
      ensures Shapes() && Kept() == Scrolled(old(Kept()), BlankRow(cols, attr))
    {
      ghost var t := Kept();
      KeepRow();
      TurnRing(attr);
      ScrolledOk(t, BlankRow(cols, attr));
    }

    method TurnRing(attr: byte)
      requires Shapes()
      modifies this`rowOrigin, this`history, cells
      ensures Kept() == Turned(old(Kept()), BlankRow(cols, attr))
    {
      ghost var was := Kept();
      Fill(rows, 0, cols - 1, attr);
      assert Blanked(was.ring[(rowOrigin + rows) % 256], 0, cols - 1, attr) == BlankRow(cols, attr);
      rowOrigin := (rowOrigin + 1) % 256;
      if history < 256 - rows {
        history := history + 1;
      }
    }

    /** The first step of a scroll: the row that would be lost, kept in the deeper ring. */
    method KeepRow()
      requires Valid()
      modifies this`deepHead, this`deepCount, if deep == null then {} else {deep}
      ensures Shapes() && Kept() == Preserved(old(Kept()))
    {
      if deep != null && history >= 256 - rows {
        CopyRow(deep, deepHead, cells, (rowOrigin + rows) % 256);
        deepHead := (deepHead + 1) % 4096;
        if deepCount < 4096 {
          deepCount := deepCount + 1;
        }
      }
    }
  }
}
