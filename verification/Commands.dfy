/** What each control sequence does, from its bytes: ESC [, its numbers and its letter. */
module Commands {
  import opened Bits
  import opened Chargen
  import opened Screen
  import opened Escapes
  import opened Sequences
  import opened Clearing
  import Render

  // ----- Numbers that are asked for -----

  /** A field asks for n where one is the least there is: a field that is empty or zero asks for one. */
  predicate Asks(f: seq<byte>, n: word)
  {
    Number(f) && n == if Value(f) == 0 then 1 else Value(f)
  }

  lemma {:induction false} NumberAsks(n: word)
    ensures Number(Digits(n)) && Value(Digits(n)) == n && Digits(n) != []
    ensures Asks(Digits(n), if n == 0 then 1 else n)
  {
    DigitsDecimal(n);
  }

  lemma {:induction false} NothingAsks()
    ensures Asks([], 1) && Value([]) == 0
  {
  }

  lemma GivenOne(f: seq<byte>, fs: seq<seq<byte>>)
    requires Number(f) && fs == [f]
    ensures Fields(fs) && Given(fs) == if f == [] then [] else [Value(f)]
  {
    assert Values(fs) == [Value(f)];
  }

  lemma GivenTwo(f: seq<byte>, g: seq<byte>, fs: seq<seq<byte>>)
    requires Number(f) && Number(g) && f != [] && fs == [f, g]
    ensures Fields(fs) && Given(fs) == [Value(f), Value(g)]
  {
    assert Values(fs) == [Value(f), Value(g)];
  }

  // ----- What a sequence is carried out on -----

  function Held(f: seq<byte>): (p: seq<word>)
    requires Number(f)
    ensures |p| <= 8
  {
    if f == [] then [] else [Value(f)]
  }

  lemma {:induction false} OnlyText(f: seq<byte>)
    ensures FieldText([f]) == f
  {
    assert [f][1..] == [];
  }

  lemma {:induction false} OneField(c: Con, f: seq<byte>, final: byte)
    requires ConOk(c) && c.esc == Normal && Number(f) && 64 <= final <= 126
    ensures FedAll(c, [27, 91] + f + [final]) == DoCsi(Holding(c, Held(f)), final).(esc := Normal)
  {
    GivenOne(f, [f]);
    FeedSequence(c, [f], final);
    OnlyText(f);
  }

  lemma {:induction false} TwoFields(c: Con, f: seq<byte>, g: seq<byte>, final: byte)
    requires ConOk(c) && c.esc == Normal && Number(f) && Number(g) && f != [] && 64 <= final <= 126
    ensures FedAll(c, [27, 91] + f + [59] + g + [final]) == DoCsi(Holding(c, [Value(f), Value(g)]), final).(esc := Normal)
  {
    var fs := [f, g];
    GivenTwo(f, g, fs);
    FeedSequence(c, fs, final);
    TwoText(f, g, fs, final);
  }

  lemma {:induction false} TwoText(f: seq<byte>, g: seq<byte>, fs: seq<seq<byte>>, final: byte)
    requires fs == [f, g]
    ensures [27, 91] + FieldText(fs) + [final] == [27, 91] + f + [59] + g + [final]
  {
    TailFirst(fs[1..]);
    assert fs[1..][1..] == [];
    assert FieldText(fs) == f + ([59] + g);
  }

  // ----- Moving the cursor -----

  lemma OneMove(c: Con, f: seq<byte>, n: word, final: byte)
    requires ConOk(c) && Asks(f, n) && (65 <= final <= 68 || final == 71 || final == 72 || final == 102)
    ensures DoCsi(Holding(c, Held(f)), final).scr == Moved(c.scr, final, n, 1)
  {
  }

  lemma {:induction false} Move(c: Con, f: seq<byte>, n: word, final: byte)
    requires ConOk(c) && c.esc == Normal && Asks(f, n) && (65 <= final <= 68 || final == 71 || final == 72 || final == 102)
    ensures FedAll(c, [27, 91] + f + [final]).scr == Moved(c.scr, final, n, 1)
  {
    OneField(c, f, final);
    OneMove(c, f, n, final);
  }

  /** ESC [ n A: n rows up, the column and everything else as it was. */
  lemma {:induction false} MoveUp(c: Con, f: seq<byte>, n: word)
    requires ConOk(c) && c.esc == Normal && Asks(f, n)
    ensures FedAll(c, [27, 91] + f + [65]).scr == c.scr.(row := if n > c.scr.row then 0 else c.scr.row - n, pending := false)
  {
    Move(c, f, n, 65);
  }

  /** ESC [ n B: n rows down, as long as the sum is one of 32 bits. */
  lemma {:induction false} MoveDown(c: Con, f: seq<byte>, n: word)
    requires ConOk(c) && c.esc == Normal && Asks(f, n)
    ensures FedAll(c, [27, 91] + f + [66]).scr == c.scr.(row := Least(c.scr.row + n, c.scr.rows - 1), pending := false)
      <==> c.scr.row + n < 0x1_0000_0000
  {
    Move(c, f, n, 66);
    MovesOn(c.scr, n);
  }

  /** ESC [ n C: n columns on, with the same limit. */
  lemma {:induction false} MoveRight(c: Con, f: seq<byte>, n: word)
    requires ConOk(c) && c.esc == Normal && Asks(f, n)
    ensures FedAll(c, [27, 91] + f + [67]).scr == c.scr.(col := Least(c.scr.col + n, c.scr.cols - 1), pending := false)
      <==> c.scr.col + n < 0x1_0000_0000
  {
    Move(c, f, n, 67);
    MovesOn(c.scr, n);
  }

  /** ESC [ n D: n columns back. */
  lemma {:induction false} MoveLeft(c: Con, f: seq<byte>, n: word)
    requires ConOk(c) && c.esc == Normal && Asks(f, n)
    ensures FedAll(c, [27, 91] + f + [68]).scr == c.scr.(col := if n > c.scr.col then 0 else c.scr.col - n, pending := false)
  {
    Move(c, f, n, 68);
  }

  /** ESC [ n G: to column n, counted from one. */
  lemma {:induction false} MoveToColumn(c: Con, f: seq<byte>, n: word)
    requires ConOk(c) && c.esc == Normal && Asks(f, n)
    ensures FedAll(c, [27, 91] + f + [71]).scr == c.scr.(col := Least(n - 1, c.scr.cols - 1), pending := false)
  {
    Move(c, f, n, 71);
  }

  /** ESC [ n H and ESC [ n f: to the beginning of row n. */
  lemma {:induction false} MoveToRow(c: Con, f: seq<byte>, n: word, final: byte)
    requires ConOk(c) && c.esc == Normal && Asks(f, n) && (final == 72 || final == 102)
    ensures FedAll(c, [27, 91] + f + [final]).scr == c.scr.(row := Least(n - 1, c.scr.rows - 1), col := 0, pending := false)
  {
    Move(c, f, n, final);
  }

  lemma TwoMoves(c: Con, f: seq<byte>, g: seq<byte>, n: word, m: word, final: byte)
    requires ConOk(c) && Asks(f, n) && Asks(g, m) && (final == 72 || final == 102)
    ensures DoCsi(Holding(c, [Value(f), Value(g)]), final).scr
      == c.scr.(row := Least(n - 1, c.scr.rows - 1), col := Least(m - 1, c.scr.cols - 1), pending := false)
  {
  }

  /** ESC [ n ; m H and ESC [ n ; m f: to row n and column m. */
  lemma {:induction false} MoveToPlace(c: Con, f: seq<byte>, g: seq<byte>, n: word, m: word, final: byte)
    requires ConOk(c) && c.esc == Normal && f != [] && Asks(f, n) && Asks(g, m) && (final == 72 || final == 102)
    ensures FedAll(c, [27, 91] + f + [59] + g + [final]).scr
      == c.scr.(row := Least(n - 1, c.scr.rows - 1), col := Least(m - 1, c.scr.cols - 1), pending := false)
  {
    TwoFields(c, f, g, final);
    TwoMoves(c, f, g, n, m, final);
  }

  /** With the digits of a positive number, each letter changes exactly its own coordinate. */
  lemma {:induction false} MovesByNumber(c: Con, n: word)
    requires ConOk(c) && c.esc == Normal && n > 0
    ensures FedAll(c, [27, 91] + Digits(n) + [65]).scr == c.scr.(row := if n > c.scr.row then 0 else c.scr.row - n, pending := false)
    ensures FedAll(c, [27, 91] + Digits(n) + [68]).scr == c.scr.(col := if n > c.scr.col then 0 else c.scr.col - n, pending := false)
    ensures FedAll(c, [27, 91] + Digits(n) + [71]).scr == c.scr.(col := Least(n - 1, c.scr.cols - 1), pending := false)
  {
    NumberAsks(n);
    MoveUp(c, Digits(n), n);
    MoveLeft(c, Digits(n), n);
    MoveToColumn(c, Digits(n), n);
  }

  /** And without a number it moves by one. */
  lemma {:induction false} MovesByOne(c: Con)
    requires ConOk(c) && c.esc == Normal
    ensures FedAll(c, [27, 91] + [] + [65]).scr == c.scr.(row := if c.scr.row == 0 then 0 else c.scr.row - 1, pending := false)
    ensures FedAll(c, [27, 91] + [] + [68]).scr == c.scr.(col := if c.scr.col == 0 then 0 else c.scr.col - 1, pending := false)
  {
    NothingAsks();
    MoveUp(c, [], 1);
    MoveLeft(c, [], 1);
  }

  // ----- Erasing -----

  /** The text after an erase: the cells of a part are blank, in the colours there are, and the
      other cells, the lines above the screen and the cursor are what they were. */
  ghost predicate Blanked(c: Con, d: Con, part: (int, int) -> bool)
    requires ConOk(c)
  {
    && Follows(c.scr, d.scr) && |d.scr.text| == |c.scr.text| && d.scr.row == c.scr.row && d.scr.col == c.scr.col && !d.scr.pending
    && forall i: nat, j: nat :: i < |c.scr.text| && j < c.scr.cols ==>
      CellAt(d.scr, i, j) == if part(i, j) then Cell(0, Attr(c.pen)) else CellAt(c.scr, i, j)
  }

  lemma Unheld(c: Con, f: seq<byte>, final: byte)
    requires ConOk(c) && Number(f) && (final == 74 || final == 75)
    ensures DoCsi(Holding(c, Held(f)), final).scr
      == (if final == 74 then EraseDisplay(c.scr, Value(f), Attr(c.pen)) else EraseLine(c.scr, Value(f), Attr(c.pen))).(pending := false)
  {
    var p := Holding(c, Held(f));
    assert Param(p.params, p.nparams, 0, 0) == Value(f);
  }

  lemma {:induction false} DisplayBlanked(c: Con, n: word, t: Scr)
    requires ConOk(c) && t == EraseDisplay(c.scr, n, Attr(c.pen))
    ensures Blanked(c, c.(scr := t.(pending := false)), (i, j) => i >= Top(c.scr) && Clearing.Part(n, Line(c.scr), c.scr.col, i, j))
    ensures forall k :: 0 <= k < c.scr.rows ==> t.flags[k] == (c.scr.flags[k] && (n == 0 ==> k <= c.scr.row) && (n == 1 ==> k >= c.scr.row) && n <= 1)
  {
    EraseDisplayIs(c.scr, n, Attr(c.pen), 0, 0);
    forall i: nat, j: nat | i < |c.scr.text| && j < c.scr.cols
      ensures CellAt(t, i, j)
        == if i >= Top(c.scr) && Clearing.Part(n, Line(c.scr), c.scr.col, i, j) then Cell(0, Attr(c.pen)) else CellAt(c.scr, i, j)
    {
      EraseDisplayIs(c.scr, n, Attr(c.pen), i, j);
    }
  }

  /** ESC [ n J: the display from the cursor on, up to it, or all of it; rows that are cleared
      whole are no full lines any more. */
  lemma {:induction false} ErasesDisplay(c: Con, f: seq<byte>)
    requires ConOk(c) && c.esc == Normal && Number(f)
    ensures Blanked(c, FedAll(c, [27, 91] + f + [74]), (i, j) => i >= Top(c.scr) && Clearing.Part(Value(f), Line(c.scr), c.scr.col, i, j))
    ensures var n, d := Value(f), FedAll(c, [27, 91] + f + [74]);
      forall k :: 0 <= k < c.scr.rows ==> d.scr.flags[k] == (c.scr.flags[k] && (n == 0 ==> k <= c.scr.row) && (n == 1 ==> k >= c.scr.row) && n <= 1)
  {
    OneField(c, f, 74);
    Unheld(c, f, 74);
    DisplayBlanked(c, Value(f), EraseDisplay(c.scr, Value(f), Attr(c.pen)));
  }

  lemma {:induction false} LineBlanked(c: Con, n: word, t: Scr)
    requires ConOk(c) && t == EraseLine(c.scr, n, Attr(c.pen))
    ensures Blanked(c, c.(scr := t.(pending := false)), (i, j) => i == Line(c.scr) && Clearing.Part(n, Line(c.scr), c.scr.col, i, j))
    ensures t.flags == c.scr.flags
  {
    EraseLineIs(c.scr, n, Attr(c.pen), 0, 0);
    forall i: nat, j: nat | i < |c.scr.text| && j < c.scr.cols
      ensures CellAt(t, i, j)
        == if i == Line(c.scr) && Clearing.Part(n, Line(c.scr), c.scr.col, i, j) then Cell(0, Attr(c.pen)) else CellAt(c.scr, i, j)
    {
      EraseLineIs(c.scr, n, Attr(c.pen), i, j);
    }
  }

  /** ESC [ n K: the same of the cursor's line. */
  lemma {:induction false} ErasesLine(c: Con, f: seq<byte>)
    requires ConOk(c) && c.esc == Normal && Number(f)
    ensures Blanked(c, FedAll(c, [27, 91] + f + [75]), (i, j) => i == Line(c.scr) && Clearing.Part(Value(f), Line(c.scr), c.scr.col, i, j))
    ensures FedAll(c, [27, 91] + f + [75]).scr.flags == c.scr.flags
  {
    OneField(c, f, 75);
    Unheld(c, f, 75);
    LineBlanked(c, Value(f), EraseLine(c.scr, Value(f), Attr(c.pen)));
  }

  // ----- Answers and colours -----

  lemma Asked(c: Con, f: seq<byte>)
    requires ConOk(c) && Number(f)
    ensures DoCsi(Holding(c, Held(f)), 110).answers == c.answers + if Value(f) == 6 then Report(c.scr) else []
    ensures DoCsi(Holding(c, Held(f)), 110).scr == c.scr.(pending := false)
  {
    var p := Holding(c, Held(f));
    assert Param(p.params, p.nparams, 0, 0) == Value(f);
  }

  /** ESC [ 6 n is answered with the place of the cursor, and no other number of it with
      anything; the screen stays. */
  lemma {:induction false} Answers(c: Con, f: seq<byte>)
    requires ConOk(c) && c.esc == Normal && Number(f)
    ensures var d := FedAll(c, [27, 91] + f + [110]);
      d.scr == c.scr.(pending := false)
      && d.answers == c.answers + (if Value(f) == 6 then [27, 91] + Digits(c.scr.row + 1) + [59] + Digits(c.scr.col + 1) + [82] else [])
  {
    OneField(c, f, 110);
    Asked(c, f);
  }

  lemma {:induction false} OnlyZero(p: Pen)
    requires p.fg < 16 && p.bg < 16
    ensures Graphics(p, [0]) == Graphic(p, 0)
  {
    assert [0][..0] == [];
    assert Graphics(p, []) == p;
  }

  lemma {:induction false} Painted(c: Con, p: seq<word>)
    requires ConOk(c) && |p| <= 8
    ensures DoCsi(Holding(c, p), 109).scr == c.scr && DoCsi(Holding(c, p), 109).pen == Graphics(c.pen, if p == [] then [0] else p)
  {
    OnlyZero(c.pen);
    if p != [] {
      assert Over(c.params, p)[..|p|] == p;
    }
  }

  /** ESC [ and numbers and 'm': the pen after these numbers, none meaning zero; the screen stays. */
  lemma {:induction false} Paints(c: Con, fs: seq<seq<byte>>)
    requires ConOk(c) && c.esc == Normal && fs != [] && Fields(fs)
    ensures var d := FedAll(c, [27, 91] + FieldText(fs) + [109]);
      d.scr == c.scr && d.pen == Graphics(c.pen, if Given(fs) == [] then [0] else Given(fs))
  {
    FeedSequence(c, fs, 109);
    Painted(c, Given(fs));
  }

  // ----- Colours on the screen -----

  /** A character is drawn in the pen's foreground on its background, the other way round when
      it is reversed, and once more under the cursor. */
  lemma {:induction false} Inked(c: Con, l: Render.Look, col: nat, ch: byte)
    requires ConOk(c) && col < |l.row| && l.row[col] == Cell(ch, Attr(c.pen))
    ensures Render.Colours(l, col) == if c.pen.reverse == (col == l.cursor) then (c.pen.fg, c.pen.bg) else (c.pen.bg, c.pen.fg)
  {
    HalvesOf(c.pen.fg, c.pen.bg);
    HalvesOf(c.pen.bg, c.pen.fg);
  }

  lemma HalvesOf(a: nat, b: nat)
    requires b < 16
    ensures (16 * a + b) / 16 == a && (16 * a + b) % 16 == b
  {
  }
}
