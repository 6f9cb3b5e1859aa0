/** The text on the console: characters, tabs, backspaces and erasing, as calls on the
    character generator and as the lines those calls make. */
module Screen {
  import opened Bits
  import opened Chargen
  import Render

  // ----- What the generator is asked to do -----

  datatype Call = Put(row: nat, col: nat, cell: Cell) | Fill(row: nat, from: nat, to: nat, attr: byte) | Scroll(attr: byte)

  /** What a call makes of the text, the last `rows` lines of which are the screen. */
  function Applied(text: seq<Row>, rows: nat, cols: nat, call: Call): (t: seq<Row>)
    requires rows <= |text|
    ensures |t| >= |text|
  {
    match call
    case Put(row, col, cell) =>
      if row < rows then text[|text| - rows + row := CellSet(text[|text| - rows + row], col, cell)] else text
    case Fill(row, from, to, attr) =>
      if row < rows && from <= to then text[|text| - rows + row := Blanked(text[|text| - rows + row], from, to, attr)] else text
    case Scroll(attr) => text + [BlankRow(cols, attr)]
  }

  function AllApplied(text: seq<Row>, rows: nat, cols: nat, calls: seq<Call>): (t: seq<Row>)
    requires rows <= |text|
    ensures |t| >= |text|
  {
    if calls == [] then text
    else Applied(AllApplied(text, rows, cols, calls[..|calls| - 1]), rows, cols, calls[|calls| - 1])
  }

  // ----- The screen -----

  /** All lines since the start, the cursor on the last `rows` of them, whether a wrap is held
      back on the last column, which lines of the screen ended because they were full, and
      the calls made so far. */
  datatype Scr = Scr(cols: nat, rows: nat, text: seq<Row>, row: nat, col: nat, pending: bool, flags: seq<bool>, calls: seq<Call>)

  predicate Ok(s: Scr)
  {
    && 9 <= s.cols && 1 <= s.rows <= |s.text| && s.row < s.rows && s.col < s.cols && |s.flags| == s.rows
    && (s.pending ==> s.col == s.cols - 1)
    && forall i :: 0 <= i < |s.text| ==> |s.text[i]| == s.cols
  }

  /** The first line on the screen, and the line the cursor is on. */
  function Top(s: Scr): nat
    requires s.rows <= |s.text|
  {
    |s.text| - s.rows
  }

  function Line(s: Scr): nat
    requires s.rows <= |s.text|
  {
    Top(s) + s.row
  }

  /** A screen of the same shape, with no line less. */
  predicate Follows(s: Scr, t: Scr)
  {
    Ok(t) && t.cols == s.cols && t.rows == s.rows && |t.text| >= |s.text|
  }

  function Made(s: Scr, call: Call): (t: Scr)
    requires Ok(s)
    ensures Follows(s, t)
  {
    s.(text := Applied(s.text, s.rows, s.cols, call), calls := s.calls + [call])
  }

  /** newline: the next line, the screen scrolled when there is none below. */
  function Down(s: Scr, attr: byte): (t: Scr)
    requires Ok(s)
    ensures Follows(s, t) && Line(t) == Line(s) + 1 && t.col == 0 && !t.pending
  {
    if s.row + 1 < s.rows then s.(row := s.row + 1, col := 0, pending := false)
    else Made(Made(s, Scroll(attr)), Fill(s.rows - 1, 0, s.cols - 1, attr)).(col := 0, pending := false, flags := s.flags[1..] + [false])
  }

  /** The wrap that was held back. */
  function Unheld(s: Scr, attr: byte): (t: Scr)
    requires Ok(s)
    ensures Follows(s, t) && !t.pending
  {
    if s.pending then Down(s.(flags := s.flags[s.row := true]), attr) else s
  }

  function Here(s: Scr, c: byte, attr: byte): (t: Scr)
    requires Ok(s)
    ensures Follows(s, t)
  {
    Made(s, Put(s.row, s.col, Cell(Render.Glyph(c), attr)))
  }

  function Forward(s: Scr): (t: Scr)
    requires Ok(s)
    ensures Follows(s, t)
  {
    if s.col + 1 >= s.cols then s.(col := s.cols - 1, pending := true) else s.(col := s.col + 1)
  }

  /** A character: after a wrap that was held back, at the cursor, which goes on. */
  function Print(s: Scr, c: byte, attr: byte): (t: Scr)
    requires Ok(s)
    ensures Follows(s, t)
  {
    Forward(Here(Unheld(s, attr), c, attr))
  }

  /** How many blanks a tab still draws: none at a multiple of eight; else up to the next one,
      and where the line ends first, the rest of the line and eight more. */
  function TabLeft(cols: nat, col: nat, pending: bool): nat
    requires 9 <= cols && col < cols
  {
    var stop := (col / 8 + 1) * 8;
    if col % 8 == 0 then 0
    else if pending then 8
    else if stop < cols then stop - col
    else cols - col + 8
  }

  lemma TabDown(cols: nat, col: nat, pending: bool)
    requires 9 <= cols && col < cols && col % 8 != 0
    ensures pending ==> TabLeft(cols, 1, false) < TabLeft(cols, col, pending)
    ensures !pending && col < cols - 1 ==> TabLeft(cols, col + 1, false) < TabLeft(cols, col, pending)
    ensures !pending && col == cols - 1 ==> TabLeft(cols, col, true) < TabLeft(cols, col, pending)
    ensures (col / 8 + 1) * 8 > col
  {
    var q := col / 8;
    if col + 1 == 8 * (q + 1) {
      assert (col + 1) % 8 == 0;
    } else {
      assert (col + 1) / 8 == q;
    }
  }

  /** Where a character leaves the cursor, on a grid of any width. */
  datatype Cursor = Cursor(col: nat, pending: bool)

  function Stepped(cols: nat, u: Cursor): Cursor
  {
    var col := if u.pending then 0 else u.col;
    if col + 1 >= cols then Cursor(if cols == 0 then 0 else cols - 1, true) else Cursor(col + 1, false)
  }

  function SteppedBy(cols: nat, u: Cursor, n: nat): Cursor
  {
    if n == 0 then u else Stepped(cols, SteppedBy(cols, u, n - 1))
  }

  /** On two to eight columns no blank ends at a multiple of eight: the tab loop has no end. */
  lemma {:induction false} NeverStops(cols: nat, u: Cursor, n: nat)
    requires 2 <= cols <= 8 && n >= 1
    ensures var t := SteppedBy(cols, u, n); 1 <= t.col < 8 && (t.pending ==> t.col == cols - 1) && t.col < cols
  {
    if n > 1 {
      NeverStops(cols, u, n - 1);
    }
  }

  /** On one column the first blank does. */
  lemma {:induction false} OneColumn(u: Cursor)
    ensures SteppedBy(1, u, 1).col == 0
  {
  }

  /** From nine columns on some blank does, whatever the cursor's place. */
  lemma {:induction false} WideStops(cols: nat, u: Cursor) returns (n: nat)
    requires 9 <= cols && u.col < cols
    ensures n >= 1 && SteppedBy(cols, u, n).col % 8 == 0
    decreases TabLeft(cols, Stepped(cols, u).col, Stepped(cols, u).pending)
  {
    var t := Stepped(cols, u);
    if t.col % 8 == 0 {
      n := 1;
      assert SteppedBy(cols, u, 1) == Stepped(cols, SteppedBy(cols, u, 0));
    } else {
      SteppedLess(cols, t);
      var k := WideStops(cols, t);
      SteppedMore(cols, u, k);
      n := k + 1;
    }
  }

  lemma SteppedLess(cols: nat, u: Cursor)
    requires 9 <= cols && u.col < cols && u.col % 8 != 0
    ensures TabLeft(cols, Stepped(cols, u).col, Stepped(cols, u).pending) < TabLeft(cols, u.col, u.pending)
  {
    TabDown(cols, u.col, u.pending);
  }

  lemma {:induction false} SteppedMore(cols: nat, u: Cursor, k: nat)
    ensures SteppedBy(cols, Stepped(cols, u), k) == SteppedBy(cols, u, k + 1)
  {
    if k > 0 {
      SteppedMore(cols, u, k - 1);
    }
  }

  /** The tab loop ends, from every place of the cursor, exactly on one column and from nine on. */
  lemma TabEnds(cols: nat, u: Cursor)
    requires u.col < cols && (u.pending ==> u.col == cols - 1)
    ensures (exists n {:trigger SteppedBy(cols, u, n)} :: n >= 1 && SteppedBy(cols, u, n).col % 8 == 0) <==> cols == 1 || cols >= 9
  {
    if cols == 1 {
      OneColumn(u);
    } else if cols >= 9 {
      var n := WideStops(cols, u);
    } else {
      forall n: nat {:trigger SteppedBy(cols, u, n)} | n >= 1
        ensures SteppedBy(cols, u, n).col % 8 != 0
      {
        NeverStops(cols, u, n);
      }
    }
  }

  lemma PrintCursor(s: Scr, c: byte, attr: byte)
    requires Ok(s)
    ensures Cursor(Print(s, c, attr).col, Print(s, c, attr).pending) == Stepped(s.cols, Cursor(s.col, s.pending))
  {
  }

  lemma PrintLess(s: Scr, t: Scr, c: byte, attr: byte)
    requires Ok(s) && s.col % 8 != 0 && t == Print(s, c, attr)
    ensures TabLeft(t.cols, t.col, t.pending) < TabLeft(s.cols, s.col, s.pending)
  {
    PrintCursor(s, c, attr);
    SteppedLess(s.cols, Cursor(s.col, s.pending));
  }

  /** The blanks of a tab after its first one. */
  function TabOn(s: Scr, attr: byte): (t: Scr)
    requires Ok(s)
    ensures Follows(s, t) && t.col % 8 == 0
    decreases TabLeft(s.cols, s.col, s.pending)
  {
    if s.col % 8 == 0 then s
    else PrintLess(s, Print(s, 32, attr), 32, attr); TabOn(Print(s, 32, attr), attr)
  }

  /** A backspace: never up past a line that was finished. */
  function Back(s: Scr, attr: byte): (t: Scr)
    requires Ok(s)
    ensures Follows(s, t)
  {
    if s.pending then Here(s.(pending := false), 32, attr)
    else if s.col > 0 then Here(s.(col := s.col - 1), 32, attr)
    else if s.row > 0 && s.flags[s.row - 1] then
      Here(s.(row := s.row - 1, col := s.cols - 1, flags := s.flags[s.row - 1 := false]), 32, attr)
    else s
  }

  /** draw_char */
  function Draw(s: Scr, c: byte, attr: byte): (t: Scr)
    requires Ok(s)
    ensures Follows(s, t)
  {
    if c == 10 then Down(s.(pending := false, flags := s.flags[s.row := false]), attr)
    else if c == 13 then s.(pending := false, col := 0)
    else if c == 8 then Back(s, attr)
    else if c == 9 then TabOn(Print(s, 32, attr), attr)
    else if c < 32 then s
    else Print(s, c, attr)
  }

  /** erase_cells and clear_row */
  function Erased(s: Scr, row: nat, from: nat, to: nat, attr: byte): (t: Scr)
    requires Ok(s)
    ensures Follows(s, t)
  {
    if row >= s.rows || from > to then s else Made(s, Fill(row, from, if to >= s.cols then s.cols - 1 else to, attr))
  }

  function Cleared(s: Scr, row: nat, attr: byte): (t: Scr)
    requires Ok(s) && row < s.rows
    ensures Follows(s, t)
  {
    Made(s, Fill(row, 0, s.cols - 1, attr)).(flags := s.flags[row := false])
  }

  function ClearedRows(s: Scr, from: nat, to: nat, attr: byte): (t: Scr)
    requires Ok(s) && to <= s.rows
    ensures Follows(s, t)
    decreases if from < to then to - from else 0
  {
    if from >= to then s else ClearedRows(Cleared(s, from, attr), from + 1, to, attr)
  }

  // ----- The calls make the text -----

  predicate Traced(s: Scr, text: seq<Row>)
  {
    s.rows <= |text| && s.text == AllApplied(text, s.rows, s.cols, s.calls)
  }

  lemma MadeTraced(s: Scr, call: Call, text: seq<Row>)
    requires Ok(s) && Traced(s, text)
    ensures Traced(Made(s, call), text)
  {
    assert (s.calls + [call])[..|s.calls|] == s.calls;
  }

  lemma DownTraced(s: Scr, attr: byte, text: seq<Row>)
    requires Ok(s) && Traced(s, text)
    ensures Traced(Down(s, attr), text)
  {
    if s.row + 1 >= s.rows {
      MadeTraced(s, Scroll(attr), text);
      MadeTraced(Made(s, Scroll(attr)), Fill(s.rows - 1, 0, s.cols - 1, attr), text);
    }
  }

  lemma PrintTraced(s: Scr, c: byte, attr: byte, text: seq<Row>)
    requires Ok(s) && Traced(s, text)
    ensures Traced(Print(s, c, attr), text)
  {
    if s.pending {
      DownTraced(s.(flags := s.flags[s.row := true]), attr, text);
    }
    var u := Unheld(s, attr);
    MadeTraced(u, Put(u.row, u.col, Cell(Render.Glyph(c), attr)), text);
  }

  lemma {:induction false} TabTraced(s: Scr, attr: byte, text: seq<Row>)
    requires Ok(s) && Traced(s, text)
    ensures Traced(TabOn(s, attr), text)
    decreases TabLeft(s.cols, s.col, s.pending)
  {
    if s.col % 8 != 0 {
      var u := Print(s, 32, attr);
      PrintLess(s, u, 32, attr);
      PrintTraced(s, 32, attr, text);
      TabTraced(u, attr, text);
    }
  }

  lemma HereTraced(s: Scr, c: byte, attr: byte, text: seq<Row>)
    requires Ok(s) && Traced(s, text)
    ensures Traced(Here(s, c, attr), text)
  {
    MadeTraced(s, Put(s.row, s.col, Cell(Render.Glyph(c), attr)), text);
  }

  lemma BackTraced(s: Scr, attr: byte, text: seq<Row>)
    requires Ok(s) && Traced(s, text)
    ensures Traced(Back(s, attr), text)
  {
    if s.pending {
      HereTraced(s.(pending := false), 32, attr, text);
    } else if s.col > 0 {
      HereTraced(s.(col := s.col - 1), 32, attr, text);
    } else if s.row > 0 && s.flags[s.row - 1] {
      HereTraced(s.(row := s.row - 1, col := s.cols - 1, flags := s.flags[s.row - 1 := false]), 32, attr, text);
    }
  }

  lemma DrawTraced(s: Scr, c: byte, attr: byte, text: seq<Row>)
    requires Ok(s) && Traced(s, text)
    ensures Traced(Draw(s, c, attr), text)
  {
    if c == 10 {
      DownTraced(s.(pending := false, flags := s.flags[s.row := false]), attr, text);
    } else if c == 8 {
      BackTraced(s, attr, text);
    } else if c == 9 {
      PrintTraced(s, 32, attr, text);
      TabTraced(Print(s, 32, attr), attr, text);
    } else if c >= 32 {
      PrintTraced(s, c, attr, text);
    }
  }

  lemma OneClearedTraced(s: Scr, row: nat, attr: byte, text: seq<Row>)
    requires Ok(s) && row < s.rows && Traced(s, text)
    ensures Traced(Cleared(s, row, attr), text)
  {
    MadeTraced(s, Fill(row, 0, s.cols - 1, attr), text);
  }

  lemma {:induction false} ClearedTraced(s: Scr, from: nat, to: nat, attr: byte, text: seq<Row>)
    requires Ok(s) && to <= s.rows && Traced(s, text)
    ensures Traced(ClearedRows(s, from, to, attr), text)
    decreases if from < to then to - from else 0
  {
    if from < to {
      OneClearedTraced(s, from, attr, text);
      ClearedTraced(Cleared(s, from, attr), from + 1, to, attr, text);
    }
  }

  lemma ErasedTraced(s: Scr, row: nat, from: nat, to: nat, attr: byte, text: seq<Row>)
    requires Ok(s) && Traced(s, text)
    ensures Traced(Erased(s, row, from, to, attr), text)
  {
    if row < s.rows && from <= to {
      MadeTraced(s, Fill(row, from, if to >= s.cols then s.cols - 1 else to, attr), text);
    }
  }
}
