/** The text console: its variables, changed byte by byte. */
module Console {
  import opened Bits
  import opened Chargen
  import opened Screen
  import opened Escapes
  import Render

  class Terminal {
    const cols: nat
    const rows: nat
    var curCol: nat
    var curRow: nat
    var wrapPending: bool
    const rowWrapped: array<bool>
    var fg: byte
    var bg: byte
    var reverse: bool
    var esc: Esc
    const params: array<word>
    var nparams: nat
    var savedCol: nat
    var savedRow: nat
    var cp: nat
    var need: nat
    /** The lines written since the start, the calls on the generator that wrote them, and what
        the keyboard is to be told. */
    var text: seq<Row>
    var calls: seq<Call>
    var answers: seq<byte>

    predicate Sized()
    {
      rowWrapped.Length == 40 && params.Length == 8 && rows <= 40
    }

    function Shown(): Scr
      requires Sized()
      reads this, rowWrapped
    {
      Scr(cols, rows, text, curRow, curCol, wrapPending, rowWrapped[..rows], calls)
    }

    function Colours(): Pen
      reads this
    {
      Pen(fg, bg, reverse)
    }

    /** The variables as one value. */
    function State(): Con
      requires Sized()
      reads this, rowWrapped, params
    {
      Con(Shown(), Colours(), esc, params[..], nparams, savedCol, savedRow, cp, need, answers)
    }

    predicate Valid()
      reads this, rowWrapped, params
    {
      Sized() && ConOk(State())
    }

    constructor (cols: nat, rows: nat)
      requires 9 <= cols <= 0xffff && 1 <= rows <= 40
      ensures Valid() && fresh(rowWrapped) && fresh(params)
      ensures State() == Con(Scr(cols, rows, seq(rows, r => BlankRow(cols, 0xf0)), 0, 0, false, seq(rows, r => false), []),
                             Pen(15, 0, false), Normal, seq(8, i => 0), 0, 0, 0, 0, 0, [])
    {
      this.cols, this.rows, curCol, curRow, wrapPending := cols, rows, 0, 0, false;
      rowWrapped := new bool[40](i => false);
      params := new word[8](i => 0);
      fg, bg, reverse, esc, nparams, savedCol, savedRow, cp, need := 15, 0, false, Normal, 0, 0, 0, 0, 0;
      text, calls, answers := seq(rows, r => BlankRow(cols, 0xf0)), [], [];
      new;
      assert rowWrapped[..rows] == seq(rows, r => false);
      assert params[..] == seq(8, i => 0);
    }

    // ----- Drawing -----

    /** eff_attr */
    method EffAttr() returns (a: byte)
      requires fg < 16 && bg < 16
      ensures a == Attr(Colours())
    {
      var f := if reverse then bg else fg;
      var b := if reverse then fg else bg;
      a := f * 16 + b;
    }

    /** A call on the character generator. */
    method Emit(call: Call)
      requires Sized() && Ok(Shown())
      modifies this`text, this`calls
      ensures Shown() == Made(old(Shown()), call)
    {
      text := Applied(text, rows, cols, call);
      calls := calls + [call];
    }

    /** draw_glyph at the cursor */
    method DrawGlyph(c: byte, attr: byte)
      requires Sized() && Ok(Shown())
      modifies this`text, this`calls
      ensures Shown() == Here(old(Shown()), c, attr)
    {
      Emit(Put(curRow, curCol, Cell(Render.Glyph(c), attr)));
    }

    method SetFlag(r: nat, on: bool)
      requires Sized() && r < rows
      modifies rowWrapped
      ensures rowWrapped[..rows] == old(rowWrapped[..rows])[r := on]
    {
      rowWrapped[r] := on;
    }

    /** The flags move up with their rows. */
    method MoveFlags()
      requires Sized() && 1 <= rows
      modifies rowWrapped
      ensures rowWrapped[..rows] == old(rowWrapped[..rows])[1..] + [false]
    {
      for r := 1 to rows
        invariant forall k :: 0 <= k < rows ==> rowWrapped[k] == old(rowWrapped[if k < r - 1 then k + 1 else k])
      {
        rowWrapped[r - 1] := rowWrapped[r];
      }
      rowWrapped[rows - 1] := false;
    }

    /** newline */
    method Newline(attr: byte)
      requires Sized() && Ok(Shown()) && !wrapPending
      modifies this`curCol, this`curRow, this`text, this`calls, rowWrapped
      ensures Shown() == Down(old(Shown()), attr)
    {
      ghost var was := Shown();
      curCol := 0;
      curRow := curRow + 1;
      if curRow >= rows {
        curRow := rows - 1;
        ghost var mid := Shown();
        Emit(Scroll(attr));
        Emit(Fill(rows - 1, 0, cols - 1, attr));
        MoveFlags();
        DownScrolled(was, mid, attr, Shown());
      }
    }

    static lemma DownScrolled(was: Scr, mid: Scr, attr: byte, t: Scr)
      requires Ok(was) && !was.pending && was.row + 1 == was.rows && mid == was.(col := 0)
      requires t == Made(Made(mid, Scroll(attr)), Fill(was.rows - 1, 0, was.cols - 1, attr)).(flags := was.flags[1..] + [false])
      ensures t == Down(was, attr)
    {
    }

    /** A character at the cursor, after the wrap that was held back. */
    method PutChar(c: byte, attr: byte)
      requires Sized() && Ok(Shown())
      modifies this`curCol, this`curRow, this`wrapPending, this`text, this`calls, rowWrapped
      ensures Shown() == Print(old(Shown()), c, attr)
    {
      if wrapPending {
        wrapPending := false;
        SetFlag(curRow, true);
        assert Shown() == old(Shown()).(pending := false, flags := old(Shown()).flags[curRow := true]);
        Newline(attr);
      }
      assert Shown() == Unheld(old(Shown()), attr);
      DrawGlyph(c, attr);
      curCol := curCol + 1;
      if curCol >= cols {
        curCol := cols - 1;
        wrapPending := true;
      }
    }

    /** A tab, which ends on every grid of nine columns or more. */
    method Tab(attr: byte)
      requires Sized() && Ok(Shown())
      modifies this`curCol, this`curRow, this`wrapPending, this`text, this`calls, rowWrapped
      ensures Shown() == Draw(old(Shown()), 9, attr)
    {
      ghost var want := Draw(Shown(), 9, attr);
      PutChar(32, attr);
      while curCol % 8 != 0
        invariant Sized() && Ok(Shown()) && TabOn(Shown(), attr) == want
        decreases TabLeft(cols, curCol, wrapPending)
      {
        ghost var s := Shown();
        PutChar(32, attr);
        PrintLess(s, Shown(), 32, attr);
      }
    }

    /** A backspace */
    method Backspace(attr: byte)
      requires Sized() && Ok(Shown())
      modifies this`curCol, this`curRow, this`wrapPending, this`text, this`calls, rowWrapped
      ensures Shown() == Back(old(Shown()), attr)
    {
      if wrapPending {
        wrapPending := false;
        DrawGlyph(32, attr);
      } else if curCol > 0 {
        curCol := curCol - 1;
        DrawGlyph(32, attr);
      } else if curRow > 0 && rowWrapped[curRow - 1] {
        curRow := curRow - 1;
        curCol := cols - 1;
        SetFlag(curRow, false);
        DrawGlyph(32, attr);
      }
    }

    /** draw_char */
    method DrawChar(c: byte)
      requires Valid()
      modifies this`curCol, this`curRow, this`wrapPending, this`text, this`calls, rowWrapped
      ensures Valid() && State() == Drawn(old(State()), c)
    {
      var attr := EffAttr();
      if c >= 32 {
        PutChar(c, attr);
      } else {
        Control(c, attr);
      }
    }

    /** The characters that move the cursor. */
    method Control(c: byte, attr: byte)
      requires Sized() && Ok(Shown()) && c < 32
      modifies this`curCol, this`curRow, this`wrapPending, this`text, this`calls, rowWrapped
      ensures Shown() == Draw(old(Shown()), c, attr)
    {
      if c == 10 {
        LineFeed(attr);
      } else if c == 13 {
        wrapPending := false;
        curCol := 0;
      } else if c == 8 {
        Backspace(attr);
      } else if c == 9 {
        Tab(attr);
      }
    }

    method LineFeed(attr: byte)
      requires Sized() && Ok(Shown())
      modifies this`curCol, this`curRow, this`wrapPending, this`text, this`calls, rowWrapped
      ensures Shown() == Draw(old(Shown()), 10, attr)
    {
      wrapPending := false;
      SetFlag(curRow, false);
      Newline(attr);
    }

    // ----- Control sequences -----

    /** set_graphics */
    method SetGraphics()
      requires Valid()
      modifies this`fg, this`bg, this`reverse, this`nparams, params
      ensures Valid() && State() == DoCsi(old(State()), 109)
    {
      ghost var before := Colours();
      if nparams == 0 {
        params[0] := 0;
        nparams := 1;
      }
      ghost var list, n := params[..], nparams;
      for i := 0 to nparams
        invariant params[..] == list && nparams == n && fg < 16 && bg < 16 && Colours() == Graphics(before, list[..i])
      {
        assert list[..i + 1][..i] == list[..i];
        SetGraphic(params[i]);
      }
      assert list[..1][..0] == [];
    }

    method SetGraphic(v: word)
      requires fg < 16 && bg < 16
      modifies this`fg, this`bg, this`reverse
      ensures fg < 16 && bg < 16 && Colours() == Graphic(old(Colours()), v)
    {
      if v == 0 {
        fg, bg, reverse := 15, 0, false;
      } else if v == 1 {
        fg := fg % 8 + 8;
      } else if v == 7 {
        reverse := true;
      } else if v == 22 {
        fg := fg % 8;
      } else if v == 27 {
        reverse := false;
      } else if 30 <= v <= 37 {
        fg := v - 30;
      } else if v == 39 {
        fg := 15;
      } else if 40 <= v <= 47 {
        bg := v - 40;
      } else if v == 49 {
        bg := 0;
      } else if 90 <= v <= 97 {
        fg := v - 90 + 8;
      } else if 100 <= v <= 107 {
        bg := v - 100 + 8;
      }
    }

    method GetParam(i: nat, dflt: word) returns (n: word)
      requires Valid()
      ensures n == Param(params[..], nparams, i, dflt)
    {
      n := if i < nparams && params[i] != 0 then params[i] else dflt;
    }

    /** Erasing part of a line; the columns come clamped to it. */
    method EraseCells(row: nat, from: nat, to: nat, attr: byte)
      requires Sized() && Ok(Shown())
      modifies this`text, this`calls
      ensures Shown() == Erased(old(Shown()), row, from, to, attr)
    {
      if row >= rows || from > to {
        return;
      }
      Emit(Fill(row, from, if to >= cols then cols - 1 else to, attr));
    }

    /** clear_row */
    method ClearRow(row: nat, attr: byte)
      requires Sized() && Ok(Shown()) && row < rows
      modifies this`text, this`calls, rowWrapped
      ensures Shown() == Cleared(old(Shown()), row, attr)
    {
      Emit(Fill(row, 0, cols - 1, attr));
      SetFlag(row, false);
    }

    method ClearRows(from: nat, to: nat, attr: byte)
      requires Sized() && Ok(Shown()) && to <= rows
      modifies this`text, this`calls, rowWrapped
      ensures Shown() == ClearedRows(old(Shown()), from, to, attr)
    {
      ghost var want := ClearedRows(Shown(), from, to, attr);
      var r := from;
      while r < to
        invariant Sized() && Ok(Shown()) && ClearedRows(Shown(), r, to, attr) == want
        decreases if r < to then to - r else 0
      {
        ClearRow(r, attr);
        r := r + 1;
      }
    }

    static lemma BelowIs(s: Scr, u: Scr, t: Scr, attr: byte)
      requires Ok(s) && u == Erased(s, s.row, s.col, s.cols - 1, attr) && t == ClearedRows(u, s.row + 1, s.rows, attr)
      ensures t == EraseDisplay(s, 0, attr)
    {
    }

    method EraseInDisplay(n: word, attr: byte)
      requires Sized() && Ok(Shown())
      modifies this`text, this`calls, rowWrapped
      ensures Shown() == EraseDisplay(old(Shown()), n, attr)
    {
      ghost var s := Shown();
      if n == 0 {
        EraseCells(curRow, curCol, cols - 1, attr);
        ghost var u := Shown();
        ClearRows(curRow + 1, rows, attr);
        BelowIs(s, u, Shown(), attr);
      } else if n == 1 {
        ClearRows(0, curRow, attr);
        RowStays(s, 0, s.row, attr);
        EraseCells(curRow, 0, curCol, attr);
      } else {
        ClearRows(0, rows, attr);
      }
    }

    method EraseInLine(n: word, attr: byte)
      requires Sized() && Ok(Shown())
      modifies this`text, this`calls
      ensures Shown() == EraseLine(old(Shown()), n, attr)
    {
      if n == 0 {
        EraseCells(curRow, curCol, cols - 1, attr);
      } else if n == 1 {
        EraseCells(curRow, 0, curCol, attr);
      } else {
        EraseCells(curRow, 0, cols - 1, attr);
      }
    }

    /** Moves by a distance: sums of 32-bit words. */
    method MoveBy(final: byte, n: word, ghost m: word)
      requires Valid() && 65 <= final <= 68 && n > 0 && m > 0
      modifies this`curCol, this`curRow
      ensures Shown().(pending := false) == Moved(old(Shown()), final, n, m)
    {
      if final == 65 {
        curRow := if n > curRow then 0 else curRow - n;
      } else if final == 66 {
        var to: word := U32(curRow + n);
        curRow := if to >= rows then rows - 1 else to;
      } else if final == 67 {
        var to: word := U32(curCol + n);
        curCol := if to >= cols then cols - 1 else to;
      } else {
        curCol := if n > curCol then 0 else curCol - n;
      }
    }

    /** Moves to a column, or to a row and a column. */
    method MoveTo(final: byte, n: word, m: word)
      requires Valid() && (final == 71 || final == 72 || final == 102) && n > 0 && m > 0
      modifies this`curCol, this`curRow
      ensures Shown().(pending := false) == Moved(old(Shown()), final, n, m)
    {
      if final == 71 {
        curCol := if n - 1 >= cols then cols - 1 else n - 1;
      } else {
        curRow := if n - 1 >= rows then rows - 1 else n - 1;
        curCol := if m - 1 >= cols then cols - 1 else m - 1;
      }
    }

    /** The moves of the cursor. */
    method MoveCursor(final: byte)
      requires Valid() && (65 <= final <= 68 || final == 71 || final == 72 || final == 102)
      modifies this`curCol, this`curRow, this`wrapPending
      ensures Valid() && State() == DoCsi(old(State()), final)
    {
      var n := GetParam(0, 1);
      var m := GetParam(1, 1);
      ghost var c := State();
      if final <= 68 {
        MoveBy(final, n, m);
      } else {
        MoveTo(final, n, m);
      }
      wrapPending := false;
      MovedIs(c, final, n, m, State());
    }

    /** The digits of a number: last first into a buffer, and out of it in order. */
    method PutDigits(n: nat) returns (d: seq<byte>)
      ensures d == Digits(n)
    {
      var tmp := GatherDigits(n);
      d := [];
      while tmp != []
        invariant d + Reversed(tmp) == Digits(n)
        decreases |tmp|
      {
        d := d + [tmp[|tmp| - 1]];
        tmp := tmp[..|tmp| - 1];
      }
    }

    method GatherDigits(n: nat) returns (tmp: seq<byte>)
      ensures Reversed(tmp) == Digits(n)
    {
      tmp := [48 + n % 10];
      var x := n / 10;
      assert Reversed(tmp) == [48 + n % 10] + Reversed([]);
      while x > 0
        invariant Digits(n) == (if x > 0 then Digits(x) else []) + Reversed(tmp)
        decreases x
      {
        OneMore(x, tmp);
        tmp := tmp + [48 + x % 10];
        x := x / 10;
      }
    }

    /** report_position */
    method ReportPosition()
      requires Valid()
      modifies this`answers
      ensures Valid() && State() == old(State()).(answers := old(answers) + Report(old(Shown())))
    {
      var row := PutDigits(curRow + 1);
      var col := PutDigits(curCol + 1);
      answers := answers + ([27, 91] + row + [59] + col + [82]);
    }

    /** do_csi */
    method CarryOut(final: byte)
      requires Valid()
      modifies this`curCol, this`curRow, this`wrapPending, this`text, this`calls, this`savedCol, this`savedRow, this`fg, this`bg, this`reverse,
               this`nparams, this`answers, rowWrapped, params
      ensures Valid() && State() == DoCsi(old(State()), final)
    {
      if 65 <= final <= 68 || final == 71 || final == 72 || final == 102 {
        MoveCursor(final);
      } else if final == 74 || final == 75 {
        Erase(final);
        wrapPending := false;
      } else if final == 109 {
        SetGraphics();
      } else if final == 115 || final == 117 {
        SaveOrRestore(final);
      } else {
        Answer(final);
      }
    }

    /** The saved cursor. */
    method SaveOrRestore(final: byte)
      requires Valid() && (final == 115 || final == 117)
      modifies this`curCol, this`curRow, this`wrapPending, this`savedCol, this`savedRow
      ensures Valid() && State() == DoCsi(old(State()), final)
    {
      if final == 115 {
        savedCol, savedRow := curCol, curRow;
      } else {
        curCol := if savedCol < cols then savedCol else cols - 1;
        curRow := if savedRow < rows then savedRow else rows - 1;
        wrapPending := false;
      }
    }

    /** A question is answered; what is not known is dropped. */
    method Answer(final: byte)
      requires Valid() && !(65 <= final <= 68) && final !in {71, 72, 102, 74, 75, 109, 115, 117}
      modifies this`wrapPending, this`answers
      ensures Valid() && State() == DoCsi(old(State()), final)
    {
      if final == 110 {
        var n := GetParam(0, 0);
        if n == 6 {
          ReportPosition();
        }
      }
      wrapPending := false;
    }

    method Erase(final: byte)
      requires Valid() && (final == 74 || final == 75)
      modifies this`text, this`calls, rowWrapped
      ensures Valid() && Unpending(State()) == DoCsi(old(State()), final)
    {
      var n := GetParam(0, 0);
      var attr := EffAttr();
      if final == 74 {
        EraseInDisplay(n, attr);
      } else {
        EraseInLine(n, attr);
      }
    }

    // ----- Text -----

    /** A byte that begins a character, or is one. */
    method FeedFirst(c: byte)
      requires Valid() && need == 0
      modifies this`curCol, this`curRow, this`wrapPending, this`text, this`calls, this`cp, this`need, rowWrapped
      ensures Valid() && State() == FedFirst(old(State()), c)
    {
      if c < 0x80 {
        DrawChar(c);
      } else if 0xc0 <= c < 0xe0 {
        cp, need := c % 0x20, 1;
      } else if 0xe0 <= c < 0xf0 {
        cp, need := c % 0x10, 2;
      } else if 0xf0 <= c < 0xf8 {
        cp, need := c % 8, 3;
      } else {
        DrawChar(c);
      }
    }

    /** A byte that goes on with one. */
    method FeedMore(c: byte)
      requires Valid() && need > 0 && 0x80 <= c < 0xc0
      modifies this`curCol, this`curRow, this`wrapPending, this`text, this`calls, this`cp, this`need, rowWrapped
      ensures Valid() && State() == FedMore(old(State()), c)
    {
      ghost var was := State();
      Gathered(cp, c);
      cp := Or(cp * 0x40, c % 0x40);
      need := need - 1;
      ghost var mid := State();
      if need == 0 {
        DrawChar(if cp < 256 then cp else 63);
      }
      MoreIs(was, c, mid, State());
    }

    static lemma MoreIs(was: Con, c: byte, mid: Con, after: Con)
      requires ConOk(was) && was.need > 0 && 0x80 <= c < 0xc0
      requires mid == was.(cp := was.cp * 0x40 + (c - 0x80), need := was.need - 1)
      requires after == if mid.need > 0 then mid else Drawn(mid, if mid.cp < 256 then mid.cp else 63)
      ensures after == FedMore(was, c)
    {
    }

    static lemma Gathered(cp: nat, c: byte)
      requires 0x80 <= c < 0xc0
      ensures Or(cp * 0x40, c % 0x40) == cp * 0x40 + (c - 0x80)
    {
      OrShift6(c % 0x40, cp);
      OrCommutes(c % 0x40, cp * 0x40);
    }

    /** feed_text */
    method FeedText(c: byte)
      requires Valid()
      modifies this`curCol, this`curRow, this`wrapPending, this`text, this`calls, this`cp, this`need, rowWrapped
      ensures Valid() && State() == FedText(old(State()), c)
    {
      if need > 0 {
        if 0x80 <= c < 0xc0 {
          FeedMore(c);
          return;
        }
        ghost var was := State();
        CutOff();
        ghost var mid := State();
        FeedFirst(c);
        FedTextCut(was, c, mid, State());
        return;
      }
      FeedFirst(c);
    }

    /** A character that was cut off. */
    method CutOff()
      requires Valid() && need > 0
      modifies this`curCol, this`curRow, this`wrapPending, this`text, this`calls, this`need, rowWrapped
      ensures Valid() && State() == Drawn(old(State()).(need := 0), 63)
    {
      need := 0;
      DrawChar(63);
    }

    // ----- One byte -----

    method FeedDigit(d: nat)
      requires Valid() && d < 10
      modifies this`nparams, params
      ensures Valid() && State() == Digit(old(State()), d)
    {
      if nparams == 0 {
        nparams := 1;
      }
      params[nparams - 1] := U32(params[nparams - 1] * 10 + d);
    }

    method FeedSeparator()
      requires Valid()
      modifies this`nparams, params
      ensures Valid() && State() == Separator(old(State()))
    {
      if nparams < 8 {
        params[nparams] := 0;
        nparams := nparams + 1;
      } else {
        params[7] := 0;
      }
    }

    /** console_feed */
    method Feed(c: byte)
      requires Valid()
      modifies this, rowWrapped, params
      ensures Valid() && State() == Fed(old(State()), c)
    {
      match esc
      case Normal =>
        if c == 27 {
          need := 0;
          esc := Escape;
        } else {
          FeedText(c);
        }
      case Escape =>
        if c == 91 {
          esc := Csi;
          nparams := 0;
          params[0] := 0;
        } else {
          esc := Normal;
        }
      case Csi =>
        if 48 <= c <= 57 {
          FeedDigit(c - 48);
        } else if c == 59 {
          FeedSeparator();
        } else if 64 <= c <= 126 {
          CarryOut(c);
          esc := Normal;
        } else if c < 48 {
        } else {
          esc := Normal;
        }
    }
  }

  /** The next digit comes before those that were gathered. */
  lemma {:induction false} OneMore(x: nat, tmp: seq<byte>)
    requires x > 0
    ensures Digits(x) + Reversed(tmp) == (if x / 10 > 0 then Digits(x / 10) else []) + Reversed(tmp + [48 + x % 10])
  {
    assert (tmp + [48 + x % 10])[..|tmp|] == tmp;
  }

  lemma FedTextCut(c: Con, b: byte, mid: Con, end: Con)
    requires ConOk(c) && c.need > 0 && !(0x80 <= b < 0xc0) && mid == Drawn(c.(need := 0), 63) && end == FedFirst(mid, b)
    ensures end == FedText(c, b)
  {
  }

  lemma {:induction false} RowStays(s: Scr, from: nat, to: nat, attr: byte)
    requires Ok(s) && to <= s.rows
    ensures ClearedRows(s, from, to, attr).row == s.row && ClearedRows(s, from, to, attr).col == s.col
    decreases if from < to then to - from else 0
  {
    if from < to {
      RowStays(Cleared(s, from, attr), from + 1, to, attr);
    }
  }

  lemma MovedIs(c: Con, final: byte, n: word, m: word, d: Con)
    requires ConOk(c) && (65 <= final <= 68 || final == 71 || final == 72 || final == 102)
    requires n == Param(c.params, c.nparams, 0, 1) && m == Param(c.params, c.nparams, 1, 1) && d == c.(scr := Moved(c.scr, final, n, m))
    ensures ConOk(d) && d == DoCsi(c, final)
  {
  }

  function Reversed(s: seq<byte>): (r: seq<byte>)
    ensures |r| == |s|
  {
    if s == [] then [] else [s[|s| - 1]] + Reversed(s[..|s| - 1])
  }
}
