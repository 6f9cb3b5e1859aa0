/** What typing does: full lines take exactly as many lines as they are, and backspaces take
    back what was typed, over the ends of lines too. */
module Typing {
  import opened Bits
  import opened Chargen
  import opened Screen
  import Render

  predicate Printable(str: seq<byte>)
  {
    forall i :: 0 <= i < |str| ==> str[i] >= 32
  }

  function Type(s: Scr, str: seq<byte>, attr: byte): (t: Scr)
    requires Ok(s)
    ensures Follows(s, t)
    decreases |str|
  {
    if str == [] then s else Type(Draw(s, str[0], attr), str[1..], attr)
  }

  lemma {:induction false} TypeMore(s: Scr, a: seq<byte>, b: seq<byte>, attr: byte)
    requires Ok(s)
    ensures Type(s, a + b, attr) == Type(Type(s, a, attr), b, attr)
    decreases |a|
  {
    if a == [] {
      assert a + b == b;
    } else {
      assert (a + b)[1..] == a[1..] + b;
      TypeMore(Draw(s, a[0], attr), a[1..], b, attr);
    }
  }

  function CellsOf(str: seq<byte>, attr: byte): (r: Row)
    ensures |r| == |str|
  {
    seq(|str|, i requires 0 <= i < |str| => Cell(Render.Glyph(str[i]), attr))
  }

  /** A row with cells written over it from a column on. */
  function Over(r: Row, col: nat, cells: Row): (q: Row)
    requires col + |cells| <= |r|
    ensures |q| == |r|
  {
    r[..col] + cells + r[col + |cells|..]
  }

  lemma OverFirst(r: Row, col: nat, str: seq<byte>, attr: byte)
    requires str != [] && col + |str| <= |r|
    ensures Over(CellSet(r, col, Cell(Render.Glyph(str[0]), attr)), col + 1, CellsOf(str[1..], attr)) == Over(r, col, CellsOf(str, attr))
  {
    var cells := CellsOf(str, attr);
    assert CellsOf(str[1..], attr) == cells[1..];
    var q := r[col := cells[0]];
    assert q[..col + 1] == r[..col] + [cells[0]];
    assert q[col + |str|..] == r[col + |str|..];
    assert cells == [cells[0]] + cells[1..];
  }

  // ----- Typing within a line -----

  lemma PrintHere(s: Scr, c: byte, attr: byte)
    requires Ok(s) && !s.pending && c >= 32
    ensures var t := Draw(s, c, attr);
      t.text == s.text[Line(s) := CellSet(s.text[Line(s)], s.col, Cell(Render.Glyph(c), attr))]
      && t.row == s.row && t.flags == s.flags && t.pending == (s.col + 1 == s.cols)
      && t.col == if s.col + 1 == s.cols then s.col else s.col + 1
  {
  }

  /** Characters that fit the line are written into it; the last column holds the wrap back. */
  lemma {:induction false} TypeRow(s: Scr, str: seq<byte>, attr: byte)
    requires Ok(s) && !s.pending && str != [] && Printable(str) && s.col + |str| <= s.cols
    ensures var t := Type(s, str, attr);
      t.text == s.text[Line(s) := Over(s.text[Line(s)], s.col, CellsOf(str, attr))]
      && t.row == s.row && t.flags == s.flags && t.pending == (s.col + |str| == s.cols)
      && t.col == if s.col + |str| == s.cols then s.cols - 1 else s.col + |str|
    decreases |str|
  {
    PrintHere(s, str[0], attr);
    OverFirst(s.text[Line(s)], s.col, str, attr);
    var u := Draw(s, str[0], attr);
    if |str| == 1 {
      assert str[1..] == [];
      OverNone(u.text[Line(s)], s.col + 1, attr);
      assert Type(u, str[1..], attr) == u;
    } else {
      TypeRow(u, str[1..], attr);
      assert u.text[Line(s) := Over(u.text[Line(s)], s.col + 1, CellsOf(str[1..], attr))] == s.text[Line(s) := Over(s.text[Line(s)], s.col, CellsOf(str, attr))];
    }
  }

  lemma OverNone(r: Row, col: nat, attr: byte)
    requires col <= |r|
    ensures Over(r, col, CellsOf([], attr)) == r
  {
  }

  // ----- Full lines -----

  /** The line that the next character goes to, at its start: the cursor's own, or the one after
      it where a wrap is held back. */
  function ReadyLine(s: Scr): nat
    requires Ok(s)
  {
    if s.pending then Line(s) + 1 else Line(s)
  }

  predicate Ready(s: Scr)
  {
    Ok(s) && (s.pending || s.col == 0)
  }

  function Joined(lines: seq<seq<byte>>): seq<byte>
  {
    if lines == [] then [] else lines[0] + Joined(lines[1..])
  }

  predicate Full(lines: seq<seq<byte>>, cols: nat)
  {
    forall i :: 0 <= i < |lines| ==> |lines[i]| == cols && Printable(lines[i])
  }

  lemma FullRest(lines: seq<seq<byte>>, cols: nat)
    requires Full(lines, cols) && lines != []
    ensures Full(lines[1..], cols) && |lines[0]| == cols && Printable(lines[0])
  {
  }

  /** The text after lines were written at a place, older lines above and below kept. */
  ghost predicate Written(before: seq<Row>, after: seq<Row>, at: nat, lines: seq<seq<byte>>, attr: byte)
  {
    && |after| == (if |before| < at + |lines| then at + |lines| else |before|)
    && forall i :: 0 <= i < |after| ==>
      after[i] == if at <= i < at + |lines| then CellsOf(lines[i - at], attr) else if i < |before| then before[i] else after[i]
  }

  /** The turn to the next line before the first character, when one is held back. */
  lemma {:induction false} TypeUnheld(s: Scr, str: seq<byte>, attr: byte)
    requires Ok(s) && str != [] && Printable(str)
    ensures Type(s, str, attr) == Type(Unheld(s, attr), str, attr)
  {
  }

  lemma {:induction false} OneLine(s: Scr, line: seq<byte>, attr: byte, t: Scr)
    requires Ready(s) && |line| == s.cols && Printable(line) && t == Type(s, line, attr)
    ensures Ready(t) && t.cols == s.cols && Advanced(s, t, 1) && Written(s.text, t.text, ReadyLine(s), [line], attr)
  {
    TypeUnheld(s, line, attr);
    var u := Unheld(s, attr);
    TypeRow(u, line, attr);
    assert Over(u.text[Line(u)], 0, CellsOf(line, attr)) == CellsOf(line, attr);
  }

  /** After lines were typed: the place for the next one. */
  predicate Advanced(s: Scr, t: Scr, k: nat)
    requires Ok(s) && Ok(t)
  {
    Ready(t) && ReadyLine(t) == ReadyLine(s) + k && (t.pending <==> s.pending || k > 0)
  }

  lemma {:induction false} TypeLines(s: Scr, lines: seq<seq<byte>>, attr: byte, t: Scr)
    requires Ready(s) && Full(lines, s.cols) && t == Type(s, Joined(lines), attr)
    ensures Advanced(s, t, |lines|) && Written(s.text, t.text, ReadyLine(s), lines, attr)
    decreases |lines|
  {
    if lines != [] {
      var u := FirstLine(s, lines, attr, t);
      TypeLines(u, lines[1..], attr, t);
      LinesMore(s, u, t, lines, attr);
    }
  }

  lemma FirstLine(s: Scr, lines: seq<seq<byte>>, attr: byte, t: Scr) returns (u: Scr)
    requires Ready(s) && lines != [] && Full(lines, s.cols) && t == Type(s, Joined(lines), attr)
    ensures Ready(u) && Full(lines[1..], u.cols) && t == Type(u, Joined(lines[1..]), attr)
    ensures Advanced(s, u, 1) && Written(s.text, u.text, ReadyLine(s), [lines[0]], attr)
  {
    TypeMore(s, lines[0], Joined(lines[1..]), attr);
    u := Type(s, lines[0], attr);
    FullRest(lines, s.cols);
    OneLine(s, lines[0], attr, u);
  }

  lemma LinesMore(s: Scr, u: Scr, t: Scr, lines: seq<seq<byte>>, attr: byte)
    requires Ok(s) && Ok(u) && Ok(t) && lines != [] && Advanced(s, u, 1) && Advanced(u, t, |lines| - 1)
    requires Written(s.text, u.text, ReadyLine(s), [lines[0]], attr) && Written(u.text, t.text, ReadyLine(u), lines[1..], attr)
    ensures Advanced(s, t, |lines|) && Written(s.text, t.text, ReadyLine(s), lines, attr)
  {
    AdvancedMore(s, u, t, |lines|);
    WrittenMore(s.text, u.text, t.text, ReadyLine(s), lines, attr);
  }

  lemma AdvancedMore(s: Scr, u: Scr, t: Scr, k: nat)
    requires Ok(s) && Ok(u) && Ok(t) && k > 0 && Advanced(s, u, 1) && Advanced(u, t, k - 1)
    ensures Advanced(s, t, k)
  {
  }

  lemma WrittenMore(before: seq<Row>, middle: seq<Row>, after: seq<Row>, at: nat, lines: seq<seq<byte>>, attr: byte)
    requires lines != [] && at <= |before| && Written(before, middle, at, [lines[0]], attr) && Written(middle, after, at + 1, lines[1..], attr)
    ensures Written(before, after, at, lines, attr)
  {
  }

  /** k lines of exactly the screen's width and a newline advance k lines, and each of them is
      on a line of its own; nothing else changes but the line that may be new below them. */
  lemma {:induction false} FullLines(s: Scr, lines: seq<seq<byte>>, attr: byte)
    requires Ready(s) && lines != [] && Full(lines, s.cols)
    ensures var t := Type(s, Joined(lines) + [10], attr);
      Line(t) == ReadyLine(s) + |lines| && t.col == 0 && !t.pending
      && forall i :: 0 <= i < |t.text| ==>
        t.text[i] == if ReadyLine(s) <= i < Line(t) then CellsOf(lines[i - ReadyLine(s)], attr)
                     else if i < |s.text| then s.text[i] else BlankRow(s.cols, attr)
  {
    TypeMore(s, Joined(lines), [10], attr);
    var u := Type(s, Joined(lines), attr);
    TypeLines(s, lines, attr, u);
    assert Type(u, [10], attr) == Draw(u, 10, attr) by {
      assert [10][1..] == [];
    }
    DownText(u.(pending := false, flags := u.flags[u.row := false]), attr);
  }

  lemma DownText(s: Scr, attr: byte)
    requires Ok(s)
    ensures Down(s, attr).text == if s.row + 1 < s.rows then s.text else s.text + [BlankRow(s.cols, attr)]
  {
    if s.row + 1 >= s.rows {
      assert Blanked(BlankRow(s.cols, attr), 0, s.cols - 1, attr) == BlankRow(s.cols, attr);
    }
  }

  /** Every text of k times the width is k full lines. */
  lemma {:induction false} Chopped(str: seq<byte>, cols: nat, k: nat) returns (lines: seq<seq<byte>>)
    requires |str| == k * cols && Printable(str)
    ensures |lines| == k && Full(lines, cols) && Joined(lines) == str
  {
    if k == 0 {
      lines := [];
    } else {
      Less(k, cols);
      var rest := Chopped(str[cols..], cols, k - 1);
      lines := [str[..cols]] + rest;
      assert lines[1..] == rest && str == str[..cols] + str[cols..];
    }
  }

  lemma Less(k: nat, cols: nat)
    requires k > 0
    ensures k * cols == cols + (k - 1) * cols
  {
  }

  /** k times as many characters as the screen is wide, and a newline, advance exactly k lines. */
  lemma {:induction false} FullText(s: Scr, str: seq<byte>, k: nat, attr: byte)
    requires Ready(s) && k > 0 && |str| == k * s.cols && Printable(str)
    ensures Line(Type(s, str + [10], attr)) == ReadyLine(s) + k && Type(s, str + [10], attr).col == 0
  {
    var lines := Chopped(str, s.cols, k);
    FullLines(s, lines, attr);
  }

  // ----- Tabs -----

  function Blanks(n: nat): (b: seq<byte>)
    ensures |b| == n && Printable(b)
  {
    seq<byte>(n, i => 32)
  }

  /** n is the first positive number of blanks that ends at a multiple of eight. */
  ghost predicate Stops(s: Scr, n: nat, attr: byte)
    requires Ok(s)
  {
    && Type(s, Blanks(n), attr).col % 8 == 0
    && forall m {:trigger Blanks(m)} :: 0 < m < n ==> Type(s, Blanks(m), attr).col % 8 != 0
  }

  lemma {:induction false} BlankMore(s: Scr, m: nat, attr: byte)
    requires Ok(s) && m > 0
    ensures Type(s, Blanks(m), attr) == Type(Print(s, 32, attr), Blanks(m - 1), attr)
  {
    assert Blanks(m)[1..] == Blanks(m - 1);
  }

  lemma {:induction false} TabOnIs(s: Scr, attr: byte) returns (n: nat)
    requires Ok(s)
    ensures TabOn(s, attr) == Type(s, Blanks(n), attr) && Type(s, Blanks(n), attr).col % 8 == 0
    ensures forall m {:trigger Blanks(m)} :: 0 <= m < n ==> Type(s, Blanks(m), attr).col % 8 != 0
    decreases TabLeft(s.cols, s.col, s.pending)
  {
    if s.col % 8 == 0 {
      n := 0;
    } else {
      var u := Print(s, 32, attr);
      PrintLess(s, u, 32, attr);
      var k := TabOnIs(u, attr);
      n := k + 1;
      BlankMore(s, n, attr);
      forall m {:trigger Blanks(m)} | 0 <= m < n
        ensures Type(s, Blanks(m), attr).col % 8 != 0
      {
        if m > 0 {
          BlankMore(s, m, attr);
        }
      }
    }
  }

  /** A tab is blanks: the fewest, one at least, that end at a multiple of eight, over the end
      of the line where no such column is left on it. */
  lemma TabIs(s: Scr, attr: byte) returns (n: nat)
    requires Ok(s)
    ensures n >= 1 && Draw(s, 9, attr) == Type(s, Blanks(n), attr) && Stops(s, n, attr)
  {
    var u := Print(s, 32, attr);
    var k := TabOnIs(u, attr);
    n := k + 1;
    BlankMore(s, n, attr);
    forall m {:trigger Blanks(m)} | 0 < m < n
      ensures Type(s, Blanks(m), attr).col % 8 != 0
    {
      BlankMore(s, m, attr);
      assert 0 <= m - 1 < k;
    }
  }
}
