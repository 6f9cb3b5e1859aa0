/** What a byte fed to the console does: colours, control sequences and UTF-8, on the screen. */
module Escapes {
  import opened Bits
  import opened Chargen
  import opened Screen

  datatype Esc = Normal | Escape | Csi

  datatype Pen = Pen(fg: byte, bg: byte, reverse: bool)

  /** The console: its screen, the colours, the escape sequence and the character that are
      being read, the place that was saved, and what was answered to the keyboard. */
  datatype Con = Con(scr: Scr, pen: Pen, esc: Esc, params: seq<word>, nparams: nat, savedCol: nat, savedRow: nat,
                     cp: nat, need: nat, answers: seq<byte>)

  /** The bits of a half-read character leave room for those to come in 21 bits. */
  predicate Utf8Ok(cp: nat, need: nat)
  {
    need <= 3 && (need == 3 ==> cp < 8) && (need == 2 ==> cp < 0x200) && (need == 1 ==> cp < 0x8000)
  }

  /** The cursor is inside the grid, a wrap is held back on the last column only, and
      parameters and colours are inside their tables. */
  predicate ConOk(c: Con)
  {
    && Ok(c.scr) && c.scr.cols <= 0xffff && c.scr.rows <= 40
    && |c.params| == 8 && c.nparams <= 8 && c.pen.fg < 16 && c.pen.bg < 16 && Utf8Ok(c.cp, c.need)
  }

  // ----- Colours -----

  /** The colours of a cell as one byte; reverse exchanges them. */
  function Attr(p: Pen): byte
    requires p.fg < 16 && p.bg < 16
  {
    if p.reverse then p.bg * 16 + p.fg else p.fg * 16 + p.bg
  }

  /** What one number of a colour sequence means. */
  function Graphic(p: Pen, v: word): (q: Pen)
    requires p.fg < 16 && p.bg < 16
    ensures q.fg < 16 && q.bg < 16
  {
    if v == 0 then Pen(15, 0, false)
    else if v == 1 then p.(fg := p.fg % 8 + 8)
    else if v == 7 then p.(reverse := true)
    else if v == 22 then p.(fg := p.fg % 8)
    else if v == 27 then p.(reverse := false)
    else if 30 <= v <= 37 then p.(fg := v - 30)
    else if v == 39 then p.(fg := 15)
    else if 40 <= v <= 47 then p.(bg := v - 40)
    else if v == 49 then p.(bg := 0)
    else if 90 <= v <= 97 then p.(fg := v - 90 + 8)
    else if 100 <= v <= 107 then p.(bg := v - 100 + 8)
    else p
  }

  /** The numbers of a sequence, each after the one before it. */
  function Graphics(p: Pen, vs: seq<word>): (q: Pen)
    requires p.fg < 16 && p.bg < 16
    ensures q.fg < 16 && q.bg < 16
  {
    if vs == [] then p else Graphic(Graphics(p, vs[..|vs| - 1]), vs[|vs| - 1])
  }

  // ----- Control sequences -----

  function Param(params: seq<word>, nparams: nat, i: nat, dflt: word): word
    requires |params| == 8 && nparams <= 8
  {
    if i < nparams && params[i] != 0 then params[i] else dflt
  }

  function Least(a: nat, b: nat): nat
  {
    if a < b then a else b
  }

  /** Where the cursor goes: sums are 32-bit sums, and what is past an edge is at the edge. */
  function Moved(s: Scr, final: byte, n: word, m: word): (t: Scr)
    requires Ok(s) && n > 0 && m > 0
    ensures Follows(s, t) && t.text == s.text && t.flags == s.flags && !t.pending
  {
    var u := s.(pending := false);
    if final == 65 then u.(row := if n > s.row then 0 else s.row - n)
    else if final == 66 then u.(row := Least(U32(s.row + n), s.rows - 1))
    else if final == 67 then u.(col := Least(U32(s.col + n), s.cols - 1))
    else if final == 68 then u.(col := if n > s.col then 0 else s.col - n)
    else if final == 71 then u.(col := Least(n - 1, s.cols - 1))
    else u.(row := Least(n - 1, s.rows - 1), col := Least(m - 1, s.cols - 1))
  }

  /** Erasing in the display: from the cursor on, up to it, or all of it. */
  function EraseDisplay(s: Scr, n: word, attr: byte): (t: Scr)
    requires Ok(s)
    ensures Follows(s, t)
  {
    if n == 0 then ClearedRows(Erased(s, s.row, s.col, s.cols - 1, attr), s.row + 1, s.rows, attr)
    else if n == 1 then Erased(ClearedRows(s, 0, s.row, attr), s.row, 0, s.col, attr)
    else ClearedRows(s, 0, s.rows, attr)
  }

  function EraseLine(s: Scr, n: word, attr: byte): (t: Scr)
    requires Ok(s)
    ensures Follows(s, t)
  {
    if n == 0 then Erased(s, s.row, s.col, s.cols - 1, attr)
    else if n == 1 then Erased(s, s.row, 0, s.col, attr)
    else Erased(s, s.row, 0, s.cols - 1, attr)
  }

  /** A number in decimal. */
  function Digits(n: nat): (d: seq<byte>)
    ensures d != [] && forall i :: 0 <= i < |d| ==> 48 <= d[i] <= 57
  {
    (if n < 10 then [] else Digits(n / 10)) + [48 + n % 10]
  }

  /** The answer to a question about the cursor: ESC [ row ; column R, counted from one. */
  function Report(s: Scr): seq<byte>
  {
    [27, 91] + Digits(s.row + 1) + [59] + Digits(s.col + 1) + [82]
  }

  function Unpending(c: Con): Con
  {
    c.(scr := c.scr.(pending := false))
  }

  /** do_csi */
  function DoCsi(c: Con, final: byte): (d: Con)
    requires ConOk(c)
    ensures ConOk(d) && Follows(c.scr, d.scr)
  {
    var n, m := Param(c.params, c.nparams, 0, 1), Param(c.params, c.nparams, 1, 1);
    var z, attr := Param(c.params, c.nparams, 0, 0), Attr(c.pen);
    if 65 <= final <= 68 || final == 71 || final == 72 || final == 102 then c.(scr := Moved(c.scr, final, n, m))
    else if final == 74 then Unpending(c.(scr := EraseDisplay(c.scr, z, attr)))
    else if final == 75 then Unpending(c.(scr := EraseLine(c.scr, z, attr)))
    else if final == 109 then
      if c.nparams == 0 then c.(pen := Graphic(c.pen, 0), params := c.params[0 := 0], nparams := 1)
      else c.(pen := Graphics(c.pen, c.params[..c.nparams]))
    else if final == 110 then Unpending(if z == 6 then c.(answers := c.answers + Report(c.scr)) else c)
    else if final == 115 then c.(savedCol := c.scr.col, savedRow := c.scr.row)
    else if final == 117 then
      c.(scr := c.scr.(col := Least(c.savedCol, c.scr.cols - 1), row := Least(c.savedRow, c.scr.rows - 1), pending := false))
    else Unpending(c)
  }

  // ----- UTF-8 -----

  function Drawn(c: Con, ch: byte): (d: Con)
    requires ConOk(c)
    ensures ConOk(d) && Follows(c.scr, d.scr)
  {
    c.(scr := Draw(c.scr, ch, Attr(c.pen)))
  }

  /** A byte that begins a character, or is one. */
  function FedFirst(c: Con, b: byte): (d: Con)
    requires ConOk(c) && c.need == 0
    ensures ConOk(d) && Follows(c.scr, d.scr)
  {
    if b < 0xc0 || b >= 0xf8 then Drawn(c, b)
    else if b < 0xe0 then c.(cp := b - 0xc0, need := 1)
    else if b < 0xf0 then c.(cp := b - 0xe0, need := 2)
    else c.(cp := b - 0xf0, need := 3)
  }

  /** A byte that goes on with one: six bits more, and the last of them draws it. */
  function FedMore(c: Con, b: byte): (d: Con)
    requires ConOk(c) && c.need > 0 && 0x80 <= b < 0xc0
    ensures ConOk(d) && Follows(c.scr, d.scr)
  {
    var cp := c.cp * 0x40 + (b - 0x80);
    var d := c.(cp := cp, need := c.need - 1);
    if d.need > 0 then d else Drawn(d, if cp < 256 then cp else 63)
  }

  /** feed_text: a character that was cut off shows as one question mark. */
  function FedText(c: Con, b: byte): (d: Con)
    requires ConOk(c)
    ensures ConOk(d) && Follows(c.scr, d.scr)
  {
    if c.need == 0 then FedFirst(c, b)
    else if 0x80 <= b < 0xc0 then FedMore(c, b)
    else FedFirst(Drawn(c.(need := 0), 63), b)
  }

  // ----- One byte -----

  function Digit(c: Con, d: nat): (e: Con)
    requires ConOk(c) && d < 10
    ensures ConOk(e)
  {
    var n := if c.nparams == 0 then 1 else c.nparams;
    c.(nparams := n, params := c.params[n - 1 := U32(c.params[n - 1] * 10 + d)])
  }

  function Separator(c: Con): (e: Con)
    requires ConOk(c)
    ensures ConOk(e)
  {
    if c.nparams < 8 then c.(params := c.params[c.nparams := 0], nparams := c.nparams + 1) else c.(params := c.params[7 := 0])
  }

  /** console_feed */
  function Fed(c: Con, b: byte): (d: Con)
    requires ConOk(c)
    ensures ConOk(d) && Follows(c.scr, d.scr)
  {
    match c.esc
    case Normal => if b == 27 then c.(need := 0, esc := Escape) else FedText(c, b)
    case Escape => if b == 91 then c.(esc := Csi, nparams := 0, params := c.params[0 := 0]) else c.(esc := Normal)
    case Csi =>
      if 48 <= b <= 57 then Digit(c, b - 48)
      else if b == 59 then Separator(c)
      else if 64 <= b <= 126 then DoCsi(c, b).(esc := Normal)
      else if b < 48 then c
      else c.(esc := Normal)
  }

  /** Whatever bytes are fed, the bounds hold: they are what Fed promises. */
  function FedAll(c: Con, bytes: seq<byte>): (d: Con)
    requires ConOk(c)
    ensures ConOk(d) && Follows(c.scr, d.scr)
    decreases |bytes|
  {
    if bytes == [] then c else FedAll(Fed(c, bytes[0]), bytes[1..])
  }

  lemma {:induction false} FedMoreBytes(c: Con, a: seq<byte>, b: seq<byte>)
    requires ConOk(c)
    ensures FedAll(c, a + b) == FedAll(FedAll(c, a), b)
    decreases |a|
  {
    if a == [] {
      assert a + b == b;
    } else {
      assert (a + b)[1..] == a[1..] + b;
      FedMoreBytes(Fed(c, a[0]), a[1..], b);
    }
  }
}
