/** Backspaces take back what was typed: the cursor returns to where the typing began, over
    the ends of full lines, and nothing that was typed is left. */
module Erasing {
  import opened Bits
  import opened Chargen
  import opened Screen
  import opened Typing
  import Render

  function Backs(s: Scr, n: nat, attr: byte): (t: Scr)
    requires Ok(s)
    ensures Follows(s, t)
    decreases n
  {
    if n == 0 then s else Backs(Back(s, attr), n - 1, attr)
  }

  // ----- How far the cursor is ahead of a place -----

  /** The line ended because it was full, as far as the screen still knows. */
  predicate Turned(s: Scr, line: nat)
    requires Ok(s)
  {
    Top(s) <= line < |s.text| && s.flags[line - Top(s)]
  }

  /** n backspaces lead from one place to another: each gives up a wrap that was held back, a
      column, or the start of a line that the one before it ran over into. */
  predicate Ahead(f: int -> bool, cols: nat, line: int, col: int, pending: bool, n: nat, toLine: int, toCol: int)
    decreases n
  {
    if n == 0 then line == toLine && col == toCol && !pending
    else if pending then Ahead(f, cols, line, col, false, n - 1, toLine, toCol)
    else if col > 0 then (line > toLine || col > toCol) && Ahead(f, cols, line, col - 1, false, n - 1, toLine, toCol)
    else line > toLine && f(line - 1) && Ahead(f, cols, line - 1, cols - 1, false, n - 1, toLine, toCol)
  }

  lemma {:induction false} AheadOf(f: int -> bool, g: int -> bool, cols: nat, line: int, col: int, pending: bool, n: nat, toLine: int, toCol: int)
    requires Ahead(f, cols, line, col, pending, n, toLine, toCol)
    requires forall l :: toLine <= l < line && f(l) ==> g(l)
    ensures Ahead(g, cols, line, col, pending, n, toLine, toCol)
    decreases n
  {
    if n > 0 {
      if pending {
        AheadOf(f, g, cols, line, col, false, n - 1, toLine, toCol);
      } else if col > 0 {
        AheadOf(f, g, cols, line, col - 1, false, n - 1, toLine, toCol);
      } else {
        AheadOf(f, g, cols, line - 1, cols - 1, false, n - 1, toLine, toCol);
      }
    }
  }

  function Turns(s: Scr): int -> bool
    requires Ok(s)
  {
    l => l >= 0 && Turned(s, l)
  }

  predicate AheadBy(s: Scr, n: nat, line: nat, col: nat)
    requires Ok(s)
  {
    Ahead(Turns(s), s.cols, Line(s), s.col, s.pending, n, line, col)
  }

  /** The first character after a wrap: one backspace takes it back, and one more the wrap. */
  lemma AheadTurned(f: int -> bool, g: int -> bool, cols: nat, line: int, n: nat, toLine: int, toCol: int)
    requires Ahead(f, cols, line, cols - 1, true, n, toLine, toCol) && g(line) && toLine <= line
    requires forall l :: toLine <= l < line && f(l) ==> g(l)
    ensures Ahead(g, cols, line + 1, 1, false, n + 1, toLine, toCol)
  {
    AheadOf(f, g, cols, line, cols - 1, false, n - 1, toLine, toCol);
    assert Ahead(g, cols, line + 1, 0, false, n, toLine, toCol);
  }

  lemma {:induction false} AheadOne(f: int -> bool, g: int -> bool, cols: nat, line: int, col: int, n: nat, toLine: int, toCol: int)
    requires Ahead(f, cols, line, col, false, n, toLine, toCol) && col >= 0
    requires forall l :: toLine <= l < line && f(l) ==> g(l)
    ensures Ahead(g, cols, line, col + 1, false, n + 1, toLine, toCol) && Ahead(g, cols, line, col, true, n + 1, toLine, toCol)
  {
    NotBehind(f, cols, line, col, n, toLine, toCol);
    AheadOf(f, g, cols, line, col, false, n, toLine, toCol);
  }

  lemma TurnsKept(s: Scr, c: byte, attr: byte, line: nat)
    requires Ok(s) && c >= 32 && Top(Draw(s, c, attr)) <= line
    ensures var t := Draw(s, c, attr); forall l :: line <= l < Line(s) && Turns(s)(l) ==> Turns(t)(l)
    ensures var t := Draw(s, c, attr); s.pending && line <= Line(s) ==> Line(t) == Line(s) + 1 && t.col == 1 && !t.pending && Turns(t)(Line(s))
  {
  }

  /** A character is one backspace more. */
  lemma PrintAhead(s: Scr, c: byte, attr: byte, n: nat, line: nat, col: nat)
    requires Ok(s) && c >= 32 && AheadBy(s, n, line, col) && line <= Line(s) && Top(Draw(s, c, attr)) <= line
    ensures AheadBy(Draw(s, c, attr), n + 1, line, col) && line <= Line(Draw(s, c, attr))
  {
    var t := Draw(s, c, attr);
    TurnsKept(s, c, attr, line);
    if s.pending {
      AheadTurned(Turns(s), Turns(t), s.cols, Line(s), n, line, col);
    } else {
      PrintHere(s, c, attr);
      AheadOne(Turns(s), Turns(t), s.cols, Line(s), s.col, n, line, col);
    }
  }

  /** A cursor that is ahead of a place is not before it. */
  lemma {:induction false} NotBehind(f: int -> bool, cols: nat, line: int, col: int, n: nat, toLine: int, toCol: int)
    requires Ahead(f, cols, line, col, false, n, toLine, toCol)
    ensures line > toLine || (line == toLine && col >= toCol)
    decreases n
  {
    if n > 0 {
      if col > 0 {
        NotBehind(f, cols, line, col - 1, n - 1, toLine, toCol);
      }
    }
  }

  /** A backspace is one less. */
  lemma BackAhead(s: Scr, attr: byte, n: nat, line: nat, col: nat)
    requires Ok(s) && AheadBy(s, n + 1, line, col) && Top(s) <= line <= Line(s)
    ensures var t := Back(s, attr);
      AheadBy(t, n, line, col) && Top(t) == Top(s) && line <= Line(t)
  {
    var t := Back(s, attr);
    if s.pending {
      AheadOf(Turns(s), Turns(t), s.cols, Line(s), s.col, false, n, line, col);
    } else if s.col > 0 {
      AheadOf(Turns(s), Turns(t), s.cols, Line(s), s.col - 1, false, n, line, col);
    } else {
      assert Turned(s, Line(s) - 1) && s.row > 0;
      AheadOf(Turns(s), Turns(t), s.cols, Line(s) - 1, s.cols - 1, false, n, line, col);
    }
  }

  // ----- What is left of the text -----

  predicate Before(i: int, j: int, line: int, col: int)
  {
    i < line || (i == line && j < col)
  }

  /** The place of the next character: the start of the next line where a wrap is held back. */
  function NextLine(s: Scr): nat
    requires Ok(s)
  {
    if s.pending then Line(s) + 1 else Line(s)
  }

  function NextCol(s: Scr): nat
  {
    if s.pending then 0 else s.col
  }

  /** A cell that is what it was, or blank. */
  predicate Clean(was: seq<Row>, now: seq<Row>, i: nat, j: nat, attr: byte)
  {
    i < |now| && j < |now[i]| &&
    (now[i][j] == Cell(0, attr) || (i < |was| && j < |was[i]| && now[i][j] == was[i][j]))
  }

  predicate Same(was: seq<Row>, now: seq<Row>, i: nat, j: nat)
  {
    i < |was| && i < |now| && j < |was[i]| && j < |now[i]| && now[i][j] == was[i][j]
  }

  /** Nothing from a place on is dirty, and nothing before another one is changed. */
  ghost predicate CleanFrom(was: seq<Row>, s: Scr, line: int, col: int, fromLine: nat, fromCol: nat, attr: byte)
  {
    && (forall i: nat, j: nat :: i < |s.text| && j < s.cols && !Before(i, j, line, col) ==> Clean(was, s.text, i, j, attr))
    && (forall i: nat, j: nat :: i < |s.text| && j < s.cols && Before(i, j, fromLine, fromCol) ==> Same(was, s.text, i, j))
  }

  lemma HereClean(was: seq<Row>, s: Scr, c: byte, attr: byte, line: int, col: int, fromLine: nat, fromCol: nat)
    requires Ok(s) && CleanFrom(was, s, Line(s), s.col + 1, fromLine, fromCol, attr) && !Before(Line(s), s.col, fromLine, fromCol)
    ensures CleanFrom(was, Here(s, c, attr), Line(s), s.col + 1, fromLine, fromCol, attr)
    ensures c == 32 ==> CleanFrom(was, Here(s, c, attr), Line(s), s.col, fromLine, fromCol, attr)
  {
    var t := Here(s, c, attr);
    assert t.text == s.text[Line(s) := CellSet(s.text[Line(s)], s.col, Cell(Render.Glyph(c), attr))];
  }

  ghost predicate CleanNext(was: seq<Row>, s: Scr, fromLine: nat, fromCol: nat, attr: byte)
    requires Ok(s)
  {
    CleanFrom(was, s, NextLine(s), NextCol(s), fromLine, fromCol, attr)
  }

  /** Past the last column is the start of the next line. */
  lemma LineTurn(was: seq<Row>, s: Scr, line: int, fromLine: nat, fromCol: nat, attr: byte)
    requires Ok(s)
    ensures CleanFrom(was, s, line, s.cols, fromLine, fromCol, attr) <==> CleanFrom(was, s, line + 1, 0, fromLine, fromCol, attr)
  {
    forall i: nat, j: nat | i < |s.text| && j < s.cols
      ensures Before(i, j, line, s.cols) <==> Before(i, j, line + 1, 0)
    {
    }
  }

  lemma UnheldClean(was: seq<Row>, s: Scr, fromLine: nat, fromCol: nat, attr: byte)
    requires Ok(s) && CleanNext(was, s, fromLine, fromCol, attr) && fromLine <= Line(s)
    ensures CleanNext(was, Unheld(s, attr), fromLine, fromCol, attr)
  {
    if s.pending {
      var u := s.(flags := s.flags[s.row := true]);
      DownText(u, attr);
    }
  }

  lemma PrintClean(was: seq<Row>, s: Scr, c: byte, attr: byte, fromLine: nat, fromCol: nat)
    requires Ok(s) && c >= 32 && CleanNext(was, s, fromLine, fromCol, attr)
    requires fromLine <= Line(s) && !Before(NextLine(s), NextCol(s), fromLine, fromCol)
    ensures CleanNext(was, Draw(s, c, attr), fromLine, fromCol, attr)
    ensures !Before(NextLine(Draw(s, c, attr)), NextCol(Draw(s, c, attr)), fromLine, fromCol)
  {
    UnheldClean(was, s, fromLine, fromCol, attr);
    var u := Unheld(s, attr);
    assert CleanFrom(was, u, Line(u), u.col + 1, fromLine, fromCol, attr);
    HereClean(was, u, c, attr, Line(u), u.col, fromLine, fromCol);
    LineTurn(was, Here(u, c, attr), Line(u), fromLine, fromCol, attr);
  }

  lemma BackClean(was: seq<Row>, s: Scr, attr: byte, n: nat, fromLine: nat, fromCol: nat)
    requires Ok(s) && CleanNext(was, s, fromLine, fromCol, attr)
    requires AheadBy(s, n + 1, fromLine, fromCol) && Top(s) <= fromLine <= Line(s)
    ensures CleanNext(was, Back(s, attr), fromLine, fromCol, attr)
  {
    BackAhead(s, attr, n, fromLine, fromCol);
    var t := Back(s, attr);
    NotBehind(Turns(t), t.cols, Line(t), t.col, n, fromLine, fromCol);
    if s.pending {
      LineTurn(was, s, Line(s), fromLine, fromCol, attr);
      BlankClean(was, s, s.(pending := false), attr, fromLine, fromCol);
    } else if s.col > 0 {
      BlankClean(was, s, s.(col := s.col - 1), attr, fromLine, fromCol);
    } else {
      LineTurn(was, s, Line(s) - 1, fromLine, fromCol, attr);
      BlankClean(was, s, s.(row := s.row - 1, col := s.cols - 1, flags := s.flags[s.row - 1 := false]), attr, fromLine, fromCol);
    }
  }

  lemma BlankClean(was: seq<Row>, s: Scr, u: Scr, attr: byte, fromLine: nat, fromCol: nat)
    requires Ok(s) && Ok(u) && u.text == s.text && u.cols == s.cols && !u.pending
    requires CleanFrom(was, s, Line(u), u.col + 1, fromLine, fromCol, attr) && !Before(Line(u), u.col, fromLine, fromCol)
    ensures CleanNext(was, Here(u, 32, attr), fromLine, fromCol, attr)
  {
    HereClean(was, u, 32, attr, Line(u), u.col, fromLine, fromCol);
  }

  // ----- Typing and taking it back -----

  /** n characters after a place, on a screen that still shows it. */
  ghost predicate TypedFrom(was: seq<Row>, s: Scr, n: nat, line: nat, col: nat, attr: byte)
  {
    && Ok(s) && AheadBy(s, n, line, col) && line <= Line(s) && CleanNext(was, s, line, col, attr)
    && !Before(NextLine(s), NextCol(s), line, col)
  }

  lemma {:induction false} TypingAhead(was: seq<Row>, s: Scr, str: seq<byte>, attr: byte, n: nat, line: nat, col: nat, t: Scr, m: nat)
    requires TypedFrom(was, s, n, line, col, attr) && Printable(str)
    requires t == Type(s, str, attr) && Top(t) <= line && m == n + |str|
    ensures TypedFrom(was, t, m, line, col, attr)
    decreases |str|
  {
    if str != [] {
      var u := Draw(s, str[0], attr);
      assert t == Type(u, str[1..], attr) && Follows(u, t);
      PrintAhead(s, str[0], attr, n, line, col);
      PrintClean(was, s, str[0], attr, line, col);
      TypingAhead(was, u, str[1..], attr, n + 1, line, col, t, m);
    }
  }

  lemma {:induction false} ErasingBack(was: seq<Row>, s: Scr, attr: byte, n: nat, line: nat, col: nat, t: Scr)
    requires Ok(s) && AheadBy(s, n, line, col) && Top(s) <= line <= Line(s) && CleanNext(was, s, line, col, attr)
    requires t == Backs(s, n, attr)
    ensures Line(t) == line && t.col == col && !t.pending && CleanNext(was, t, line, col, attr)
    decreases n
  {
    if n > 0 {
      BackAhead(s, attr, n - 1, line, col);
      BackClean(was, s, attr, n - 1, line, col);
      ErasingBack(was, Back(s, attr), attr, n - 1, line, col, t);
    }
  }

  /** As many backspaces as characters were typed take the cursor back to where it was, over
      the ends of as many lines as it took, and leave every cell as it was or blank: on every
      screen that still shows the line where the typing began. */
  lemma {:induction false} TypeThenErase(s: Scr, str: seq<byte>, attr: byte)
    requires Ok(s) && !s.pending && Printable(str) && Top(Type(s, str, attr)) <= Line(s)
    ensures var t := Backs(Type(s, str, attr), |str|, attr);
      Line(t) == Line(s) && t.col == s.col && !t.pending
      && (forall i: nat, j: nat :: i < |t.text| && j < t.cols ==> Clean(s.text, t.text, i, j, attr))
      && (forall i: nat, j: nat :: i < |t.text| && j < t.cols && Before(i, j, Line(s), s.col) ==> Same(s.text, t.text, i, j))
  {
    var u := Type(s, str, attr);
    var t := Backs(u, |str|, attr);
    TypingAhead(s.text, s, str, attr, 0, Line(s), s.col, u, |str|);
    ErasingBack(s.text, u, attr, |str|, Line(s), s.col, t);
    forall i: nat, j: nat | i < |t.text| && j < t.cols
      ensures Clean(s.text, t.text, i, j, attr)
    {
      if Before(i, j, Line(s), s.col) {
        assert Same(s.text, t.text, i, j);
      }
    }
  }
}
