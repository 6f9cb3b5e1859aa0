/** What erasing and colour sequences leave, cell by cell and attribute by attribute. */
module Clearing {
  import opened Bits
  import opened Chargen
  import opened Screen
  import opened Escapes

  // ----- Erasing -----

  /** Nothing but the text, the flags and the calls is touched, and no line above the screen. */
  predicate SameCursor(s: Scr, t: Scr)
  {
    && Follows(s, t) && |t.text| == |s.text| && t.row == s.row && t.col == s.col && t.pending == s.pending
  }

  function CellAt(s: Scr, i: nat, j: nat): Cell
    requires Ok(s) && i < |s.text| && j < s.cols
  {
    s.text[i][j]
  }

  lemma ErasedIs(s: Scr, row: nat, from: nat, to: nat, attr: byte, i: nat, j: nat)
    requires Ok(s) && row < s.rows && i < |s.text| && j < s.cols
    ensures var t := Erased(s, row, from, to, attr);
      SameCursor(s, t) && t.flags == s.flags
      && CellAt(t, i, j) == if i == Top(s) + row && from <= j <= to then Cell(0, attr) else CellAt(s, i, j)
  {
  }

  lemma OneCleared(s: Scr, row: nat, attr: byte, i: nat, j: nat)
    requires Ok(s) && row < s.rows && i < |s.text| && j < s.cols
    ensures var t := Cleared(s, row, attr);
      SameCursor(s, t) && t.flags == s.flags[row := false]
      && CellAt(t, i, j) == if i == Top(s) + row then Cell(0, attr) else CellAt(s, i, j)
  {
  }

  lemma {:induction false} ClearedIs(s: Scr, from: nat, to: nat, attr: byte, i: nat, j: nat, t: Scr)
    requires Ok(s) && to <= s.rows && i < |s.text| && j < s.cols && t == ClearedRows(s, from, to, attr)
    ensures SameCursor(s, t) && (forall k :: 0 <= k < s.rows ==> t.flags[k] == (s.flags[k] && !(from <= k < to)))
    ensures CellAt(t, i, j) == if Top(s) + from <= i < Top(s) + to then Cell(0, attr) else CellAt(s, i, j)
    decreases if from < to then to - from else 0
  {
    if from < to {
      var u := Cleared(s, from, attr);
      OneCleared(s, from, attr, i, j);
      ClearedIs(u, from + 1, to, attr, i, j, t);
    }
  }

  /** The part of the display that a sequence erases: from the cursor on, up to it, or all. */
  predicate Part(n: word, line: int, col: int, i: int, j: int)
  {
    if n == 0 then i > line || (i == line && j >= col)
    else if n == 1 then i < line || (i == line && j <= col)
    else true
  }

  /** After ESC [ n J every cell of that part of the screen is blank and every other cell is
      what it was; rows that were cleared whole are no full lines any more. */
  lemma EraseDisplayIs(s: Scr, n: word, attr: byte, i: nat, j: nat)
    requires Ok(s) && i < |s.text| && j < s.cols
    ensures var t := EraseDisplay(s, n, attr);
      SameCursor(s, t)
      && CellAt(t, i, j) == (if i >= Top(s) && Part(n, Line(s), s.col, i, j) then Cell(0, attr) else CellAt(s, i, j))
      && forall k :: 0 <= k < s.rows ==> t.flags[k] == (s.flags[k] && !(n == 0 && k > s.row) && !(n == 1 && k < s.row) && n <= 1)
  {
    if n == 0 {
      var u := Erased(s, s.row, s.col, s.cols - 1, attr);
      ErasedIs(s, s.row, s.col, s.cols - 1, attr, i, j);
      ClearedIs(u, s.row + 1, s.rows, attr, i, j, EraseDisplay(s, n, attr));
    } else if n == 1 {
      var u := ClearedRows(s, 0, s.row, attr);
      ClearedIs(s, 0, s.row, attr, i, j, u);
      ErasedIs(u, s.row, 0, s.col, attr, i, j);
    } else {
      ClearedIs(s, 0, s.rows, attr, i, j, EraseDisplay(s, n, attr));
    }
  }

  /** The same for the line of the cursor alone. */
  lemma EraseLineIs(s: Scr, n: word, attr: byte, i: nat, j: nat)
    requires Ok(s) && i < |s.text| && j < s.cols
    ensures var t := EraseLine(s, n, attr);
      SameCursor(s, t) && t.flags == s.flags
      && CellAt(t, i, j) == if i == Line(s) && Part(n, Line(s), s.col, i, j) then Cell(0, attr) else CellAt(s, i, j)
  {
    ErasedIs(s, s.row, s.col, s.cols - 1, attr, i, j);
    ErasedIs(s, s.row, 0, s.col, attr, i, j);
    ErasedIs(s, s.row, 0, s.cols - 1, attr, i, j);
  }

  // ----- Colours -----

  /** What a pen is made of, each set on its own. */
  datatype Aspect = Hue | Bright | Back | Reverse

  function Of(a: Aspect, p: Pen): nat
  {
    match a
    case Hue => p.fg % 8
    case Bright => p.fg / 8
    case Back => p.bg
    case Reverse => if p.reverse then 1 else 0
  }

  /** Which numbers set an aspect, and to what. */
  predicate Sets(a: Aspect, v: word)
  {
    match a
    case Hue => v == 0 || 30 <= v <= 37 || v == 39 || 90 <= v <= 97
    case Bright => v == 0 || v == 1 || v == 22 || 30 <= v <= 37 || v == 39 || 90 <= v <= 97
    case Back => v == 0 || 40 <= v <= 47 || v == 49 || 100 <= v <= 107
    case Reverse => v == 0 || v == 7 || v == 27
  }

  function To(a: Aspect, v: word): nat
    requires Sets(a, v)
  {
    match a
    case Hue => if v == 0 || v == 39 then 7 else v % 10
    case Bright => if v == 22 || 30 <= v <= 37 then 0 else 1
    case Back => if v == 0 || v == 49 then 0 else if v < 50 then v - 40 else v - 92
    case Reverse => if v == 7 then 1 else 0
  }

  lemma OneNumber(a: Aspect, p: Pen, v: word)
    requires p.fg < 16 && p.bg < 16
    ensures Of(a, Graphic(p, v)) == if Sets(a, v) then To(a, v) else Of(a, p)
  {
  }

  /** The last number of a sequence that sets an aspect decides it. */
  lemma {:induction false} LastWins(a: Aspect, p: Pen, vs: seq<word>, k: nat)
    requires p.fg < 16 && p.bg < 16 && k < |vs| && Sets(a, vs[k]) && forall l :: k < l < |vs| ==> !Sets(a, vs[l])
    ensures Of(a, Graphics(p, vs)) == To(a, vs[k])
    decreases |vs|
  {
    var n := |vs| - 1;
    OneNumber(a, Graphics(p, vs[..n]), vs[n]);
    if k < n {
      LastWins(a, p, vs[..n], k);
    }
  }

  /** And where none sets it, it stays. */
  lemma {:induction false} NoneSets(a: Aspect, p: Pen, vs: seq<word>)
    requires p.fg < 16 && p.bg < 16 && forall k :: 0 <= k < |vs| ==> !Sets(a, vs[k])
    ensures Of(a, Graphics(p, vs)) == Of(a, p)
    decreases |vs|
  {
    if vs != [] {
      var n := |vs| - 1;
      OneNumber(a, Graphics(p, vs[..n]), vs[n]);
      NoneSets(a, p, vs[..n]);
    }
  }

  /** The aspects are all there is of a pen. */
  lemma SamePen(p: Pen, q: Pen)
    requires forall a: Aspect :: Of(a, p) == Of(a, q)
    ensures p == q
  {
    assert Of(Hue, p) == Of(Hue, q) && Of(Bright, p) == Of(Bright, q) && Of(Back, p) == Of(Back, q) && Of(Reverse, p) == Of(Reverse, q);
  }
}
