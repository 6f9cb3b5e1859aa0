/** The console's calls on the character generator, performed. */
module Display {
  import opened Bits
  import opened Chargen
  import opened Screen
  import opened Escapes
  import Sequences
  import Console

  /** The generator holds the newest lines of the text, as many as it has room for. */
  predicate Shown(t: Text, text: seq<Row>)
  {
    TextOk(t) && t.rows <= |text| && Lines(t) == Newest(text, Capacity(t) + t.rows)
  }

  /** The calls performed on the generator: it holds the newest lines of the text they make. */
  method Perform(gen: Generator, calls: seq<Call>, ghost text: seq<Row>)
    requires gen.Valid() && Shown(gen.Kept(), text)
    modifies gen, gen.Tables()
    ensures gen.Valid() && gen.rows <= |text| && Shown(gen.Kept(), AllApplied(text, gen.rows, gen.cols, calls))
  {
    ghost var now := text;
    for i := 0 to |calls|
      invariant gen.Valid() && gen.rows <= |now| && Shown(gen.Kept(), now) && now == AllApplied(text, gen.rows, gen.cols, calls[..i])
    {
      PerformOne(gen, calls[i], now);
      now := Applied(now, gen.rows, gen.cols, calls[i]);
      OneMoreCall(text, gen.rows, gen.cols, calls, i);
    }
    assert calls[..|calls|] == calls;
  }

  lemma {:induction false} OneMoreCall(text: seq<Row>, rows: nat, cols: nat, calls: seq<Call>, i: nat)
    requires rows <= |text| && i < |calls|
    ensures AllApplied(text, rows, cols, calls[..i + 1]) == Applied(AllApplied(text, rows, cols, calls[..i]), rows, cols, calls[i])
  {
    assert calls[..i + 1][..i] == calls[..i];
  }

  method PerformOne(gen: Generator, call: Call, ghost text: seq<Row>)
    requires gen.Valid() && Shown(gen.Kept(), text)
    modifies gen, gen.Tables()
    ensures gen.Valid() && gen.rows <= |text| && Shown(gen.Kept(), Applied(text, gen.rows, gen.cols, call))
  {
    ghost var now := Applied(text, gen.rows, gen.cols, call);
    match call
    case Put(row, col, cell) => PerformPut(gen, row, col, cell, text, now);
    case Fill(row, from, to, attr) => PerformFill(gen, row, from, to, attr, text, now);
    case Scroll(attr) => PerformScroll(gen, attr, text);
  }

  method PerformPut(gen: Generator, row: nat, col: nat, cell: Cell, ghost text: seq<Row>, ghost now: seq<Row>)
    requires gen.Valid() && Shown(gen.Kept(), text) && now == Applied(text, gen.rows, gen.cols, Put(row, col, cell))
    modifies gen, gen.Tables()
    ensures gen.Valid() && gen.rows <= |text| && Shown(gen.Kept(), now)
  {
    ghost var t := gen.Kept();
    gen.Put(row, col, cell.ch, cell.attr);
    PutStep(t, gen.Kept(), text, now, row, col, cell, gen.cols);
  }

  lemma PutStep(t: Text, u: Text, text: seq<Row>, now: seq<Row>, row: nat, col: nat, cell: Cell, cols: nat)
    requires Shown(t, text) && now == Applied(text, t.rows, cols, Put(row, col, cell))
    requires forall r :: 0 <= r < 256 ==> |t.ring[r]| == cols
    requires u == if row >= t.rows || col >= cols then t else WithRow(t, row, CellSet(t.ring[(t.origin + row) % 256], col, cell))
    ensures Shown(u, now)
  {
    if row < t.rows {
      LiveRow(t, text, row);
      if col >= cols {
        SameText(text, |text| - t.rows + row);
      } else {
        RowStep(t, text, row, CellSet(t.ring[(t.origin + row) % 256], col, cell));
      }
    }
  }

  lemma SameText(text: seq<Row>, i: nat)
    requires i < |text|
    ensures text[i := text[i]] == text
  {
  }

  method PerformFill(gen: Generator, row: nat, from: nat, to: nat, attr: byte, ghost text: seq<Row>, ghost now: seq<Row>)
    requires gen.Valid() && Shown(gen.Kept(), text) && now == Applied(text, gen.rows, gen.cols, Fill(row, from, to, attr))
    modifies gen, gen.Tables()
    ensures gen.Valid() && gen.rows <= |text| && Shown(gen.Kept(), now)
  {
    ghost var t := gen.Kept();
    if row < gen.rows {
      gen.FillLive(row, from, to, attr);
    }
    FillStep(t, gen.Kept(), text, now, row, from, to, attr, gen.cols);
  }

  lemma FillStep(t: Text, u: Text, text: seq<Row>, now: seq<Row>, row: nat, from: nat, to: nat, attr: byte, cols: nat)
    requires Shown(t, text) && now == Applied(text, t.rows, cols, Fill(row, from, to, attr))
    requires u == if row >= t.rows || from > to then t else WithRow(t, row, Blanked(t.ring[(t.origin + row) % 256], from, to, attr))
    ensures Shown(u, now)
  {
    if row < t.rows && from <= to {
      LiveRow(t, text, row);
      RowStep(t, text, row, Blanked(t.ring[(t.origin + row) % 256], from, to, attr));
    }
  }

  method PerformScroll(gen: Generator, attr: byte, ghost text: seq<Row>)
    requires gen.Valid() && Shown(gen.Kept(), text)
    modifies gen, gen.Tables()
    ensures gen.Valid() && gen.rows <= |text| && Shown(gen.Kept(), Applied(text, gen.rows, gen.cols, Scroll(attr)))
  {
    ScrollStep(gen.Kept(), text, BlankRow(gen.cols, attr));
    gen.Scroll(attr);
  }

  /** A row of the screen in the ring is that line of the text. */
  lemma LiveRow(t: Text, text: seq<Row>, row: nat)
    requires Shown(t, text) && row < t.rows
    ensures t.ring[(t.origin + row) % 256] == text[|text| - t.rows + row]
  {
    LinesAt(t, t.count + t.history + row);
    assert RingRow(t, row) == t.ring[(t.origin + row) % 256];
  }

  lemma RowStep(t: Text, text: seq<Row>, row: nat, r: Row)
    requires Shown(t, text) && row < t.rows
    ensures Shown(WithRow(t, row, r), text[|text| - t.rows + row := r])
  {
    HistoryOfStep(t, text, Writes(row, r));
  }

  lemma ScrollStep(t: Text, text: seq<Row>, blank: Row)
    requires Shown(t, text)
    ensures Shown(Scrolled(t, blank), text + [blank])
  {
    SteppedOk(t, Scrolls(blank));
    HistoryOfStep(t, text, Scrolls(blank));
  }

  // ----- From bytes to the generator's rows -----

  /** The console before its first byte. */
  function Fresh(cols: nat, rows: nat): (c: Con)
    requires 9 <= cols <= 0xffff && 1 <= rows <= 40
    ensures ConOk(c)
  {
    Con(Scr(cols, rows, seq(rows, r => BlankRow(cols, 0xf0)), 0, 0, false, seq(rows, r => false), []),
        Pen(15, 0, false), Normal, seq(8, i => 0), 0, 0, 0, 0, 0, [])
  }

  method FeedBytes(term: Console.Terminal, bytes: seq<byte>)
    requires term.Valid()
    modifies term, term.rowWrapped, term.params
    ensures term.Valid() && term.State() == FedAll(old(term.State()), bytes)
  {
    ghost var c := term.State();
    for i := 0 to |bytes|
      invariant term.Valid() && term.State() == FedAll(c, bytes[..i])
    {
      term.Feed(bytes[i]);
      FedMoreBytes(c, bytes[..i], [bytes[i]]);
      Sequences.One(FedAll(c, bytes[..i]), bytes[i]);
      assert bytes[..i + 1] == bytes[..i] + [bytes[i]];
    }
    assert bytes[..|bytes|] == bytes;
  }

  lemma NewestAll(text: seq<Row>, n: nat)
    requires |text| <= n
    ensures Newest(text, n) == text
  {
  }

  /** Bytes in, rows out: after any bytes the generator, told by the console what to do, holds
      the newest lines of the text those bytes mean, as many as it has room for. */
  method Displayed(cols: nat, rows: nat, psram: bool, bytes: seq<byte>) returns (gen: Generator)
    requires 9 <= cols <= 0xffff && 1 <= rows <= 40
    ensures gen.Valid() && gen.rows == rows && gen.cols == cols
    ensures Shown(gen.Kept(), FedAll(Fresh(cols, rows), bytes).scr.text)
  {
    gen := new Generator(rows, cols, psram, 0xf0);
    var term := new Console.Terminal(cols, rows);
    ghost var c := Fresh(cols, rows);
    assert term.State() == c;
    NewestAll(c.scr.text, Capacity(gen.Kept()) + rows);
    DisplayOn(gen, term, bytes, c, c.scr.text);
  }

  method DisplayOn(gen: Generator, term: Console.Terminal, bytes: seq<byte>, ghost c: Con, ghost text: seq<Row>)
    requires gen.Valid() && Shown(gen.Kept(), text) && term.Valid() && term.State() == c
    requires ConOk(c) && Traced(c.scr, text) && c.scr.rows == gen.rows && c.scr.cols == gen.cols
    requires {gen} + gen.Tables() !! {term, term.rowWrapped, term.params}
    modifies gen, gen.Tables(), term, term.rowWrapped, term.params
    ensures gen.Valid() && Shown(gen.Kept(), FedAll(c, bytes).scr.text)
  {
    FeedBytes(term, bytes);
    Sequences.RunTraced(c, bytes, text);
    var calls := term.calls;
    assert calls == FedAll(c, bytes).scr.calls;
    Perform(gen, calls, text);
  }
}
