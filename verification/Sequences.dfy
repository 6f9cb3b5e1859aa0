/** What whole sequences of bytes mean to the console. */
module Sequences {
  import opened Bits
  import opened Chargen
  import opened Screen
  import opened Escapes
  import opened Unicode

  // ----- The calls of a run make its text -----

  lemma BelowTraced(s: Scr, u: Scr, v: Scr, attr: byte, text: seq<Row>)
    requires Ok(s) && Traced(s, text) && u == Erased(s, s.row, s.col, s.cols - 1, attr) && v == ClearedRows(u, s.row + 1, s.rows, attr)
    ensures Traced(v, text)
  {
    ErasedTraced(s, s.row, s.col, s.cols - 1, attr, text);
    ClearedTraced(u, s.row + 1, s.rows, attr, text);
  }

  lemma {:induction false} AboveTraced(s: Scr, u: Scr, attr: byte, text: seq<Row>)
    requires Ok(s) && Traced(s, text) && u == ClearedRows(s, 0, s.row, attr)
    ensures Traced(Erased(u, s.row, 0, s.col, attr), text)
  {
    ClearedTraced(s, 0, s.row, attr, text);
    ErasedTraced(u, s.row, 0, s.col, attr, text);
  }

  lemma DisplayTraced(s: Scr, n: word, attr: byte, text: seq<Row>)
    requires Ok(s) && Traced(s, text)
    ensures Traced(EraseDisplay(s, n, attr), text)
  {
    if n == 0 {
      BelowTraced(s, Erased(s, s.row, s.col, s.cols - 1, attr), EraseDisplay(s, n, attr), attr, text);
    } else if n == 1 {
      AboveTraced(s, ClearedRows(s, 0, s.row, attr), attr, text);
    } else {
      ClearedTraced(s, 0, s.rows, attr, text);
    }
  }

  lemma LineTraced(s: Scr, n: word, attr: byte, text: seq<Row>)
    requires Ok(s) && Traced(s, text)
    ensures Traced(EraseLine(s, n, attr), text)
  {
    ErasedTraced(s, s.row, s.col, s.cols - 1, attr, text);
    ErasedTraced(s, s.row, 0, s.col, attr, text);
    ErasedTraced(s, s.row, 0, s.cols - 1, attr, text);
  }

  lemma CsiTraced(c: Con, final: byte, text: seq<Row>)
    requires ConOk(c) && Traced(c.scr, text)
    ensures Traced(DoCsi(c, final).scr, text)
  {
    if final == 74 {
      DisplayTraced(c.scr, Param(c.params, c.nparams, 0, 0), Attr(c.pen), text);
    } else if final == 75 {
      LineTraced(c.scr, Param(c.params, c.nparams, 0, 0), Attr(c.pen), text);
    }
  }

  lemma TextTraced(c: Con, b: byte, text: seq<Row>)
    requires ConOk(c) && Traced(c.scr, text)
    ensures Traced(FedText(c, b).scr, text)
  {
    var attr := Attr(c.pen);
    DrawTraced(c.scr, b, attr, text);
    DrawTraced(c.scr, 63, attr, text);
    if c.need > 0 {
      if 0x80 <= b < 0xc0 {
        var cp := c.cp * 0x40 + (b - 0x80);
        if cp < 256 {
          DrawTraced(c.scr, cp, attr, text);
        }
      } else {
        DrawTraced(Draw(c.scr, 63, attr), b, attr, text);
      }
    }
  }

  /** The text on the screen is what the calls on the generator make, after every run. */
  lemma {:induction false} RunTraced(c: Con, bytes: seq<byte>, text: seq<Row>)
    requires ConOk(c) && Traced(c.scr, text)
    ensures Traced(FedAll(c, bytes).scr, text)
    decreases |bytes|
  {
    if bytes != [] {
      var b := bytes[0];
      if c.esc == Normal {
        TextTraced(c, b, text);
      } else if c.esc == Csi && 64 <= b <= 126 {
        CsiTraced(c, b, text);
      }
      RunTraced(Fed(c, b), bytes[1..], text);
    }
  }

  // ----- Characters -----

  function Shown(ch: nat): byte
  {
    if ch < 256 then ch else 63
  }

  /** n more bytes of a character whose first bits are read: the last of them draws it. */
  lemma {:induction false} FeedRest(c: Con, bytes: seq<byte>, ch: nat)
    requires ConOk(c) && c.esc == Normal && c.need == |bytes| > 0
    requires (forall i :: 0 <= i < |bytes| ==> 0x80 <= bytes[i] < 0xc0) && Rest(c.cp, bytes) == ch
    ensures FedAll(c, bytes) == Drawn(c, Shown(ch)).(need := 0, cp := ch)
    decreases |bytes|
  {
    var b := bytes[0];
    var d := Fed(c, b);
    if |bytes| == 1 {
      assert bytes[1..] == [];
      assert FedAll(d, bytes[1..]) == d;
    } else {
      FeedRest(d, bytes[1..], ch);
    }
  }

  function Rest(cp: nat, bytes: seq<byte>): nat
    requires forall i :: 0 <= i < |bytes| ==> 0x80 <= bytes[i] < 0xc0
    decreases |bytes|
  {
    if bytes == [] then cp else Rest(cp * 0x40 + (bytes[0] - 0x80), bytes[1..])
  }

  lemma Sextets(c: nat)
    ensures c == c / 0x40 * 0x40 + c % 0x40 && c / 0x40 == c / 0x1000 * 0x40 + c / 0x40 % 0x40
    ensures c / 0x1000 == c / 0x4_0000 * 0x40 + c / 0x1000 % 0x40
  {
    var d := c / 0x40;
    var e := d / 0x40;
    assert c / 0x1000 == e && c / 0x4_0000 == e / 0x40;
  }

  function First(ch: nat): nat
    requires ch < 0x11_0000
  {
    if ch < 0x800 then ch / 0x40 else if ch < 0x1_0000 then ch / 0x1000 else ch / 0x4_0000
  }

  lemma Rests(ch: nat)
    requires 0x80 <= ch < 0x11_0000
    ensures forall i :: 1 <= i < |Utf8(ch)| ==> 0x80 <= Utf8(ch)[i] < 0xc0
    ensures Rest(First(ch), Utf8(ch)[1..]) == ch
  {
    Sextets(ch);
    var x, y, z := 0x80 + ch / 0x1000 % 0x40, 0x80 + ch / 0x40 % 0x40, 0x80 + ch % 0x40;
    RestOne(ch / 0x40, z);
    RestMore(ch / 0x1000, y, [z]);
    RestMore(ch / 0x4_0000, x, [y, z]);
    assert Utf8(ch)[1..] == if ch < 0x800 then [z] else if ch < 0x1_0000 then [y] + [z] else [x] + ([y] + [z]);
    assert [y, z] == [y] + [z];
  }

  lemma {:induction false} RestOne(cp: nat, b: byte)
    requires 0x80 <= b < 0xc0
    ensures Rest(cp, [b]) == cp * 0x40 + (b - 0x80)
  {
    assert [b][1..] == [];
  }

  lemma {:induction false} RestMore(cp: nat, b: byte, more: seq<byte>)
    requires 0x80 <= b < 0xc0 && forall i :: 0 <= i < |more| ==> 0x80 <= more[i] < 0xc0
    ensures Rest(cp, [b] + more) == Rest(cp * 0x40 + (b - 0x80), more)
  {
    assert ([b] + more)[1..] == more;
  }

  /** Every code point in UTF-8 is drawn once: as itself where the font has it, as one question
      mark where it does not. */
  lemma {:induction false} FeedCharacter(c: Con, ch: nat)
    requires ConOk(c) && c.esc == Normal && c.need == 0 && ch < 0x11_0000 && ch != 27
    ensures FedAll(c, Utf8(ch)) == Drawn(c, Shown(ch)).(cp := if ch < 0x80 then c.cp else ch)
  {
    var b := Utf8(ch);
    var d := Fed(c, b[0]);
    assert FedAll(c, b) == FedAll(d, b[1..]);
    if ch < 0x80 {
      assert b[1..] == [];
    } else {
      Rests(ch);
      assert d == c.(cp := d.cp, need := |b| - 1);
      FeedRest(d, b[1..], ch);
    }
  }

  // ----- Numbers -----

  function Decimal(digits: seq<byte>): nat
    requires forall i :: 0 <= i < |digits| ==> 48 <= digits[i] <= 57
  {
    if digits == [] then 0 else Decimal(digits[..|digits| - 1]) * 10 + (digits[|digits| - 1] - 48)
  }

  lemma {:induction false} DigitsDecimal(n: nat)
    ensures Decimal(Digits(n)) == n
  {
    if n >= 10 {
      DigitsDecimal(n / 10);
      assert Digits(n)[..|Digits(n)| - 1] == Digits(n / 10);
    } else {
      assert Digits(n)[..0] == [];
    }
  }

  lemma TenTimes(x: nat, d: nat)
    ensures U32(U32(x) * 10 + d) == U32(x * 10 + d)
  {
    var q := x / 0x1_0000_0000;
    assert x * 10 + d == U32(x) * 10 + d + 0x1_0000_0000 * (10 * q);
  }

  /** The parameter that is being read is the last one, or the first before there is one. */
  function Current(c: Con): nat
  {
    if c.nparams == 0 then 0 else c.nparams - 1
  }

  /** A number in a sequence is its decimal value, modulo 2^32. */
  lemma {:induction false} FeedNumber(c: Con, digits: seq<byte>)
    requires ConOk(c) && c.esc == Csi && digits != [] && (forall i :: 0 <= i < |digits| ==> 48 <= digits[i] <= 57)
    requires c.params[Current(c)] == 0
    ensures FedAll(c, digits) == c.(nparams := Current(c) + 1, params := c.params[Current(c) := U32(Decimal(digits))])
    decreases |digits|
  {
    var n := |digits| - 1;
    var front := digits[..n];
    var d := c;
    if n > 0 {
      FeedNumber(c, front);
      d := c.(nparams := Current(c) + 1, params := c.params[Current(c) := U32(Decimal(front))]);
    } else {
      assert c.params[Current(c) := 0] == c.params;
    }
    OneMoreDigit(c, d, Decimal(front), digits[n]);
    assert digits == front + [digits[n]];
    Then(c, front, [digits[n]], d, c.(nparams := Current(c) + 1, params := c.params[Current(c) := U32(Decimal(digits))]));
  }

  lemma {:induction false} OneMoreDigit(c: Con, d: Con, x: nat, b: byte)
    requires ConOk(c) && ConOk(d) && c.esc == Csi && 48 <= b <= 57 && Current(d) == Current(c)
    requires d == c.(nparams := d.nparams, params := c.params[Current(c) := U32(x)])
    ensures FedAll(d, [b]) == c.(nparams := Current(c) + 1, params := c.params[Current(c) := U32(x * 10 + (b - 48))])
  {
    One(d, b);
    DigitIs(c, d, U32(x), b - 48);
    TenTimes(x, b - 48);
  }

  lemma DigitIs(c: Con, d: Con, x: word, n: nat)
    requires ConOk(c) && ConOk(d) && n < 10 && Current(d) == Current(c) && d == c.(nparams := d.nparams, params := c.params[Current(c) := x])
    ensures Digit(d, n) == c.(nparams := Current(c) + 1, params := c.params[Current(c) := U32(x * 10 + n)])
  {
    assert d.params[Current(c) := U32(x * 10 + n)] == c.params[Current(c) := U32(x * 10 + n)];
  }

  lemma {:induction false} One(c: Con, b: byte)
    requires ConOk(c)
    ensures FedAll(c, [b]) == Fed(c, b)
  {
    assert [b][1..] == [];
    assert FedAll(Fed(c, b), []) == Fed(c, b);
  }

  lemma {:induction false} Intro(c: Con)
    requires ConOk(c) && c.esc == Normal
    ensures FedAll(c, [27, 91]) == c.(need := 0, esc := Csi, nparams := 0, params := c.params[0 := 0])
  {
    assert [27, 91] == [27] + [91];
    FedMoreBytes(c, [27], [91]);
    One(c, 27);
    One(Fed(c, 27), 91);
  }

  /** Two runs, one after the other. */
  lemma {:induction false} Then(c: Con, a: seq<byte>, b: seq<byte>, d: Con, e: Con)
    requires ConOk(c) && ConOk(d) && FedAll(c, a) == d && FedAll(d, b) == e
    ensures FedAll(c, a + b) == e
  {
    FedMoreBytes(c, a, b);
  }

  // ----- Parameters -----

  /** Fields between semicolons, each of digits or empty. */
  predicate Fields(fs: seq<seq<byte>>)
  {
    forall i, k :: 0 <= i < |fs| && 0 <= k < |fs[i]| ==> 48 <= fs[i][k] <= 57
  }

  predicate Number(f: seq<byte>)
  {
    forall k :: 0 <= k < |f| ==> 48 <= f[k] <= 57
  }

  /** The number of a field, zero where it is empty. */
  function Value(f: seq<byte>): word
    requires Number(f)
  {
    U32(Decimal(f))
  }

  function Values(fs: seq<seq<byte>>): (vs: seq<word>)
    requires Fields(fs)
    ensures |vs| == |fs|
  {
    seq<word>(|fs|, i requires 0 <= i < |fs| => Value(fs[i]))
  }

  /** Fields after the first one, each after its semicolon. */
  function Tail(fs: seq<seq<byte>>): seq<byte>
  {
    if fs == [] then [] else Tail(fs[..|fs| - 1]) + ([59] + fs[|fs| - 1])
  }

  /** There is room for eight parameters: the ninth and later ones take the place of the last. */
  function Kept(vs: seq<word>): (p: seq<word>)
    ensures |p| <= 8 && (p == [] <==> vs == [])
  {
    if |vs| <= 8 then vs else vs[..7] + [vs[|vs| - 1]]
  }

  /** What the fields give the sequence: an empty first field is not counted. */
  function Given(fs: seq<seq<byte>>): (p: seq<word>)
    requires fs != [] && Fields(fs)
    ensures |p| <= 8
  {
    if fs[0] == [] then Kept(Values(fs)[1..]) else Kept(Values(fs))
  }

  function Over(params: seq<word>, p: seq<word>): (q: seq<word>)
    requires |params| == 8 && |p| <= 8
    ensures |q| == 8
  {
    if p == [] then params[0 := 0] else p + params[|p|..]
  }

  /** The console in a sequence that has been given these parameters. */
  function Holding(c: Con, p: seq<word>): (d: Con)
    requires ConOk(c) && |p| <= 8
    ensures ConOk(d)
  {
    c.(need := 0, esc := Csi, nparams := |p|, params := Over(c.params, p))
  }

  lemma {:induction false} Separated(c: Con, d: Con)
    requires ConOk(c) && c.esc == Csi
    requires d == c.(nparams := Least(c.nparams + 1, 8), params := c.params[Least(c.nparams, 7) := 0])
    ensures ConOk(d) && FedAll(c, [59]) == d
  {
    One(c, 59);
  }

  /** A semicolon and a field, empty or not. */
  lemma {:induction false} FeedField(c: Con, f: seq<byte>, e: Con)
    requires ConOk(c) && c.esc == Csi && c.nparams >= 1 && Number(f)
    requires e == c.(nparams := Least(c.nparams + 1, 8), params := c.params[Least(c.nparams, 7) := Value(f)])
    ensures FedAll(c, [59] + f) == e
  {
    var at := Least(c.nparams, 7);
    var d := c.(nparams := at + 1, params := c.params[at := 0]);
    Separated(c, d);
    if f == [] {
      assert [59] + f == [59];
    } else {
      FeedNumber(d, f);
      assert d.params[at := Value(f)] == c.params[at := Value(f)];
      Then(c, [59], f, d, e);
    }
  }

  lemma KeptMore(params: seq<word>, vs: seq<word>, v: word)
    requires |params| == 8 && vs != []
    ensures Over(params, Kept(vs + [v])) == Over(params, Kept(vs))[Least(|Kept(vs)|, 7) := v]
    ensures |Kept(vs + [v])| == Least(|Kept(vs)| + 1, 8)
  {
  }

  lemma HoldingMore(c: Con, vs: seq<word>, v: word, d: Con, e: Con)
    requires ConOk(c) && vs != [] && d == Holding(c, Kept(vs)) && e == Holding(c, Kept(vs + [v]))
    ensures d.esc == Csi && d.nparams >= 1
    ensures e == d.(nparams := Least(d.nparams + 1, 8), params := d.params[Least(d.nparams, 7) := v])
  {
    KeptMore(c.params, vs, v);
  }

  lemma ValueAt(vs: seq<word>, fs: seq<seq<byte>>, n: nat)
    requires Fields(fs) && n < |fs| && vs != [] && vs[1..] == Values(fs)
    ensures vs[n + 1] == Value(fs[n])
  {
    assert vs[n + 1] == vs[1..][n];
  }

  lemma ValuesFront(vs: seq<word>, fs: seq<seq<byte>>, n: nat)
    requires Fields(fs) && n <= |fs| && vs != [] && vs[1..] == Values(fs)
    ensures vs[..n + 1][1..] == Values(fs[..n]) && vs[..n + 1][..1] == vs[..1]
  {
    var a, b := vs[..n + 1][1..], Values(fs[..n]);
    forall i | 0 <= i < n
      ensures a[i] == b[i]
    {
      ValueAt(vs, fs, i);
    }
  }

  lemma {:induction false} FeedTail(c: Con, fs: seq<seq<byte>>, start: Con, vs: seq<word>, e: Con)
    requires ConOk(c) && Fields(fs) && |vs| == 1 + |fs| && vs[1..] == Values(fs)
    requires start == Holding(c, vs[..1]) && e == Holding(c, Kept(vs))
    ensures FedAll(start, Tail(fs)) == e
    decreases |fs|
  {
    if fs == [] {
      assert vs[..1] == vs;
    } else {
      var n := |fs| - 1;
      var d := Holding(c, Kept(vs[..n + 1]));
      ValuesFront(vs, fs, n);
      FeedTail(c, fs[..n], start, vs[..n + 1], d);
      TailStep(c, fs, start, vs, d, e);
    }
  }

  lemma SplitLast(vs: seq<word>, v: word)
    requires vs != [] && v == vs[|vs| - 1]
    ensures vs == vs[..|vs| - 1] + [v]
  {
  }

  lemma {:induction false} TailStep(c: Con, fs: seq<seq<byte>>, start: Con, vs: seq<word>, d: Con, e: Con)
    requires ConOk(c) && ConOk(start) && fs != [] && Fields(fs) && |vs| == 1 + |fs| && vs[1..] == Values(fs)
    requires d == Holding(c, Kept(vs[..|fs|])) && e == Holding(c, Kept(vs)) && FedAll(start, Tail(fs[..|fs| - 1])) == d
    ensures FedAll(start, Tail(fs)) == e
  {
    var n := |fs| - 1;
    ValueAt(vs, fs, n);
    SplitLast(vs, Value(fs[n]));
    FeedLast(c, vs[..n + 1], fs[n], d, e);
    Then(start, Tail(fs[..n]), [59] + fs[n], d, e);
  }

  lemma {:induction false} FeedLast(c: Con, vs: seq<word>, f: seq<byte>, d: Con, e: Con)
    requires ConOk(c) && vs != [] && Number(f) && d == Holding(c, Kept(vs)) && e == Holding(c, Kept(vs + [Value(f)]))
    ensures FedAll(d, [59] + f) == e
  {
    HoldingMore(c, vs, Value(f), d, e);
    FeedField(d, f, e);
  }

  function FieldText(fs: seq<seq<byte>>): seq<byte>
    requires fs != []
  {
    fs[0] + Tail(fs[1..])
  }

  lemma {:induction false} FeedFirst(c: Con, f: seq<byte>)
    requires ConOk(c) && f != [] && Number(f)
    ensures FedAll(Holding(c, []), f) == Holding(c, [Value(f)])
  {
    FeedNumber(Holding(c, []), f);
    assert c.params[0 := 0][0 := Value(f)] == Over(c.params, [Value(f)]);
  }

  /** The tail of fields whose first one is empty begins with a semicolon, which makes the
      place that the second field then takes. */
  lemma {:induction false} FeedNoFirst(c: Con, f: seq<byte>)
    requires ConOk(c) && Number(f)
    ensures FedAll(Holding(c, []), [59] + f) == Holding(c, [Value(f)])
  {
    var a, d := Holding(c, []), Holding(c, [0]);
    assert a.params[0 := 0] == Over(c.params, [0]);
    Separated(a, d);
    if f == [] {
      assert [59] + f == [59];
    } else {
      FeedNumber(d, f);
      assert d.params[0 := Value(f)] == Over(c.params, [Value(f)]);
      Then(a, [59], f, d, Holding(c, [Value(f)]));
    }
  }

  lemma Assoc(a: seq<byte>, b: seq<byte>, c: seq<byte>)
    ensures a + b + c == a + (b + c)
  {
  }

  lemma {:induction false} TailLast(fs: seq<seq<byte>>, front: seq<seq<byte>>, f: seq<byte>)
    requires fs == front + [f]
    ensures Tail(fs) == Tail(front) + ([59] + f)
  {
    assert fs[..|fs| - 1] == front;
  }

  lemma {:induction false} TailFirst(fs: seq<seq<byte>>)
    requires fs != []
    ensures Tail(fs) == ([59] + fs[0]) + Tail(fs[1..])
    decreases |fs|
  {
    var n := |fs| - 1;
    if n == 0 {
      assert fs == [] + [fs[0]] && fs[1..] == [];
      TailLast(fs, [], fs[0]);
    } else {
      var middle := fs[1..n];
      TailFirst(fs[..n]);
      assert fs[..n][1..] == middle && fs[1..] == middle + [fs[n]] && fs == fs[..n] + [fs[n]];
      TailLast(fs[1..], middle, fs[n]);
      TailLast(fs, fs[..n], fs[n]);
      Assoc([59] + fs[0], Tail(middle), [59] + fs[n]);
    }
  }

  /** Any list of fields leaves the parameters that Given says. */
  lemma FeedFields(c: Con, fs: seq<seq<byte>>)
    requires ConOk(c) && fs != [] && Fields(fs)
    ensures FedAll(Holding(c, []), FieldText(fs)) == Holding(c, Given(fs))
  {
    if fs[0] != [] {
      FieldsWithFirst(c, fs, Holding(c, Given(fs)));
    } else if |fs| == 1 {
      assert FieldText(fs) == [] && Values(fs)[1..] == [];
    } else {
      FieldsWithout(c, fs, Holding(c, Given(fs)));
    }
  }

  lemma FieldsWithFirst(c: Con, fs: seq<seq<byte>>, e: Con)
    requires ConOk(c) && fs != [] && Fields(fs) && fs[0] != [] && e == Holding(c, Kept(Values(fs)))
    ensures FedAll(Holding(c, []), FieldText(fs)) == e
  {
    FeedFirst(c, fs[0]);
    var vs := Values(fs);
    ValuesRest(fs, vs);
    FeedTail(c, fs[1..], Holding(c, vs[..1]), vs, e);
    Then(Holding(c, []), fs[0], Tail(fs[1..]), Holding(c, vs[..1]), e);
  }

  lemma FieldsWithout(c: Con, fs: seq<seq<byte>>, e: Con)
    requires ConOk(c) && |fs| >= 2 && Fields(fs) && fs[0] == [] && e == Holding(c, Kept(Values(fs)[1..]))
    ensures FedAll(Holding(c, []), FieldText(fs)) == e
  {
    FeedNoFirst(c, fs[1]);
    var vs := Values(fs)[1..];
    assert vs == Values(fs[1..]);
    ValuesRest(fs[1..], vs);
    assert fs[1..][1..] == fs[2..] && fs[1..][0] == fs[1];
    FeedTail(c, fs[2..], Holding(c, vs[..1]), vs, e);
    TailFirst(fs[1..]);
    Then(Holding(c, []), [59] + fs[1], Tail(fs[2..]), Holding(c, vs[..1]), e);
    assert FieldText(fs) == ([59] + fs[1]) + Tail(fs[2..]);
  }

  lemma ValuesRest(fs: seq<seq<byte>>, vs: seq<word>)
    requires fs != [] && Fields(fs) && vs == Values(fs)
    ensures vs[1..] == Values(fs[1..]) && vs[..1] == [Value(fs[0])]
  {
  }

  /** ESC [, fields between semicolons and a final byte: the sequence carried out with what the
      fields give it. */
  lemma {:induction false} FeedSequence(c: Con, fs: seq<seq<byte>>, final: byte)
    requires ConOk(c) && c.esc == Normal && fs != [] && Fields(fs) && 64 <= final <= 126
    ensures FedAll(c, [27, 91] + FieldText(fs) + [final]) == DoCsi(Holding(c, Given(fs)), final).(esc := Normal)
  {
    Intro(c);
    FeedFields(c, fs);
    var d := Holding(c, Given(fs));
    Then(c, [27, 91], FieldText(fs), Holding(c, []), d);
    One(d, final);
    Then(c, [27, 91] + FieldText(fs), [final], d, Fed(d, final));
  }

  // ----- Sequences that are cut short -----

  /** Everything below '0', the digits and ';': the bytes after which a sequence is read on. */
  predicate KeepsOpen(b: byte)
  {
    b < 58 || b == 59
  }

  /** What a sequence changes before its final byte. */
  ghost predicate SameButParams(c: Con, d: Con)
  {
    d == c.(esc := d.esc, nparams := d.nparams, params := d.params)
  }

  /** A byte within a sequence keeps it open exactly when it is one of those, is carried out
      exactly from '@' to '~', and ends the sequence without any effect otherwise. */
  lemma OpenOrNot(c: Con, b: byte)
    requires ConOk(c) && c.esc == Csi
    ensures Fed(c, b).esc == Csi <==> KeepsOpen(b)
    ensures 64 <= b <= 126 ==> Fed(c, b) == DoCsi(c, b).(esc := Normal)
    ensures !(64 <= b <= 126) ==> SameButParams(c, Fed(c, b))
  {
  }

  lemma {:induction false} StaysOpen(c: Con, a: seq<byte>)
    requires ConOk(c) && c.esc == Csi && forall i :: 0 <= i < |a| ==> KeepsOpen(a[i])
    ensures FedAll(c, a).esc == Csi && SameButParams(c, FedAll(c, a))
    decreases |a|
  {
    if a != [] {
      OpenOrNot(c, a[0]);
      StaysOpen(Fed(c, a[0]), a[1..]);
    }
  }

  /** A sequence that comes to a byte which neither keeps it open nor is a final one is dropped
      up to there, and the rest of it is text. */
  lemma CutShort(c: Con, a: seq<byte>, b: byte, rest: seq<byte>) returns (d: Con)
    requires ConOk(c) && c.esc == Normal && forall i :: 0 <= i < |a| ==> KeepsOpen(a[i])
    requires !KeepsOpen(b) && !(64 <= b <= 126)
    ensures ConOk(d) && d.esc == Normal && SameButParams(c.(need := 0), d)
    ensures FedAll(c, [27, 91] + a + [b] + rest) == FedAll(d, rest)
  {
    Intro(c);
    var o := FedAll(c, [27, 91]);
    StaysOpen(o, a);
    var p := FedAll(o, a);
    OpenOrNot(p, b);
    d := Fed(p, b);
    One(p, b);
    Then(c, [27, 91], a, o, p);
    Then(c, [27, 91] + a, [b], p, d);
    Then(c, [27, 91] + a + [b], rest, d, FedAll(d, rest));
  }

  /** ESC [ ? 2 5 h, which hides or shows a cursor elsewhere: the sequence ends at the '?', and
      "25h" is drawn. */
  lemma {:induction false} PrivateDrawn(c: Con)
    requires ConOk(c) && c.esc == Normal
    ensures FedAll(c, [27, 91, 63, 50, 53, 104]).scr == Draw(Draw(Draw(c.scr, 50, Attr(c.pen)), 53, Attr(c.pen)), 104, Attr(c.pen))
  {
    MarkerDrawn(c, [27, 91, 63, 50, 53, 104]);
  }

  lemma {:induction false} MarkerDrawn(c: Con, s: seq<byte>)
    requires ConOk(c) && c.esc == Normal && |s| == 6 && s[0] == 27 && s[1] == 91 && s[2] == 63
    requires forall i :: 3 <= i < 6 ==> s[i] != 27 && s[i] < 0xc0
    ensures FedAll(c, s).scr == Draw(Draw(Draw(c.scr, s[3], Attr(c.pen)), s[4], Attr(c.pen)), s[5], Attr(c.pen))
  {
    var d := CutShort(c, [], s[2], s[3..]);
    assert s == [27, 91] + [] + [s[2]] + s[3..];
    PlainThree(d, s[3..], c.scr, Attr(c.pen));
  }

  lemma {:induction false} PlainThree(c: Con, t: seq<byte>, s: Scr, attr: byte)
    requires ConOk(c) && c.esc == Normal && c.need == 0 && |t| == 3 && c.scr == s && attr == Attr(c.pen)
    requires forall i :: 0 <= i < 3 ==> t[i] != 27 && t[i] < 0xc0
    ensures FedAll(c, t).scr == Draw(Draw(Draw(s, t[0], attr), t[1], attr), t[2], attr)
  {
    assert t == [t[0]] + [t[1], t[2]] && [t[1], t[2]] == [t[1]] + [t[2]] && [t[2]] == [t[2]] + [];
    PlainText(c, t[0], [t[1], t[2]]);
    var d := Drawn(c, t[0]);
    PlainText(d, t[1], [t[2]]);
    PlainText(Drawn(d, t[1]), t[2], []);
  }

  lemma {:induction false} PlainText(c: Con, ch: byte, rest: seq<byte>)
    requires ConOk(c) && c.esc == Normal && c.need == 0 && ch != 27 && ch < 0xc0
    ensures FedAll(c, [ch] + rest) == FedAll(Drawn(c, ch), rest)
    ensures Drawn(c, ch).esc == Normal && Drawn(c, ch).need == 0 && Drawn(c, ch).pen == c.pen
  {
    assert ([ch] + rest)[1..] == rest;
  }

  /** Parameters land in their places exactly when the first field is not empty, or where that
      cannot be told from the values: past the eighth, when the first eight are all the same. */
  lemma InPlace(fs: seq<seq<byte>>)
    requires fs != [] && Fields(fs)
    ensures Given(fs) == Kept(Values(fs)) <==> fs[0] != [] || (|fs| > 8 && Values(fs)[..7] == Values(fs)[1..8])
  {
    KeptShifted(Values(fs));
  }

  lemma KeptShifted(vs: seq<word>)
    requires vs != []
    ensures Kept(vs[1..]) == Kept(vs) <==> |vs| > 8 && vs[..7] == vs[1..8]
  {
    if |vs| > 8 {
      var last := vs[|vs| - 1];
      assert Kept(vs[1..]) == vs[1..8] + [last] && Kept(vs) == vs[..7] + [last];
      assert (vs[1..8] + [last])[..7] == vs[1..8] && (vs[..7] + [last])[..7] == vs[..7];
    } else {
      assert |Kept(vs[1..])| < |Kept(vs)|;
    }
  }

  /** An empty first field is as if it were not there: the second field's number is taken for
      the first. */
  lemma {:induction false} EmptyFirst(c: Con, fs: seq<seq<byte>>, final: byte)
    requires ConOk(c) && c.esc == Normal && |fs| >= 2 && Fields(fs) && fs[0] == [] && fs[1] != [] && 64 <= final <= 126
    ensures FedAll(c, [27, 91] + FieldText(fs) + [final]) == FedAll(c, [27, 91] + FieldText(fs[1..]) + [final])
  {
    FeedSequence(c, fs, final);
    FeedSequence(c, fs[1..], final);
    assert Values(fs)[1..] == Values(fs[1..]);
  }

  /** A position that was reported and is sent back as a cursor position is the cursor's: on
      every console with a grid of that size, wherever its cursor has gone since. */
  lemma ReportReturns(c: Con, s: Scr)
    requires ConOk(c) && c.esc == Normal && Ok(s) && s.rows == c.scr.rows && s.cols == c.scr.cols
    ensures var r := Report(s);
      FedAll(c, r[..|r| - 1] + [72]).scr == c.scr.(row := s.row, col := s.col, pending := false)
  {
    var fs := [Digits(s.row + 1), Digits(s.col + 1)];
    ReportText(s, fs);
    TwoDigits(s.row + 1, s.col + 1, fs);
    PositionFed(c, s, fs);
  }

  lemma {:induction false} TwoDigits(n: word, m: word, fs: seq<seq<byte>>)
    requires fs == [Digits(n), Digits(m)]
    ensures Fields(fs) && fs[0] != [] && Value(fs[0]) == n && Value(fs[1]) == m
  {
    DigitsDecimal(n);
    DigitsDecimal(m);
  }

  lemma {:induction false} PositionFed(c: Con, s: Scr, fs: seq<seq<byte>>)
    requires ConOk(c) && c.esc == Normal && Ok(s) && s.rows == c.scr.rows && s.cols == c.scr.cols
    requires |fs| == 2 && Fields(fs) && fs[0] != [] && Value(fs[0]) == s.row + 1 && Value(fs[1]) == s.col + 1
    ensures FedAll(c, [27, 91] + FieldText(fs) + [72]).scr == c.scr.(row := s.row, col := s.col, pending := false)
  {
    FeedSequence(c, fs, 72);
    TwoGiven(fs, s.row + 1, s.col + 1);
    Positioned(c, s, Given(fs));
  }

  lemma TwoGiven(fs: seq<seq<byte>>, n: word, m: word)
    requires |fs| == 2 && Fields(fs) && fs[0] != [] && Value(fs[0]) == n && Value(fs[1]) == m
    ensures Given(fs) == [n, m]
  {
  }

  lemma Positioned(c: Con, s: Scr, p: seq<word>)
    requires ConOk(c) && Ok(s) && s.rows == c.scr.rows && s.cols == c.scr.cols && p == [s.row + 1, s.col + 1]
    ensures DoCsi(Holding(c, p), 72).scr == c.scr.(row := s.row, col := s.col, pending := false)
  {
  }

  lemma ReportText(s: Scr, fs: seq<seq<byte>>)
    requires fs == [Digits(s.row + 1), Digits(s.col + 1)]
    ensures var r := Report(s); r[..|r| - 1] + [72] == [27, 91] + FieldText(fs) + [72]
  {
    TailFirst(fs[1..]);
    assert fs[1..][1..] == [];
  }

  /** The answer fits the sixteen bytes there are for it, and each number its six. */
  lemma {:induction false} DigitsFit(n: nat, k: nat)
    requires k >= 1 && n < Ten(k)
    ensures |Digits(n)| <= k
    decreases k
  {
    if n >= 10 {
      DigitsFit(n / 10, k - 1);
    }
  }

  function Ten(k: nat): nat
  {
    if k == 0 then 1 else 10 * Ten(k - 1)
  }

  lemma ReportFits(s: Scr)
    requires Ok(s) && s.rows <= 40 && s.cols <= 0xffff
    ensures |Report(s)| + 1 <= 16 && |Digits(s.row + 1)| <= 6 && |Digits(s.col + 1)| <= 6
  {
    assert Ten(1) == 10 && Ten(2) == 100 && Ten(3) == 1000 && Ten(4) == 10000 && Ten(5) == 100000;
    DigitsFit(s.row + 1, 2);
    DigitsFit(s.col + 1, 5);
  }

  // ----- Moving the cursor -----

  /** Down and right stop at the edge, exactly when the sum with the distance fits 32 bits;
      where it does not, the cursor goes back instead. */
  lemma MovesOn(s: Scr, n: word)
    requires Ok(s) && s.rows <= 40 && s.cols <= 0xffff && n > 0
    ensures var t := Moved(s, 66, n, 1);
      (s.row + n < 0x1_0000_0000 <==> t.row == Least(s.row + n, s.rows - 1)) && (s.row + n >= 0x1_0000_0000 ==> t.row < s.row) && t.col == s.col
    ensures var t := Moved(s, 67, n, 1);
      (s.col + n < 0x1_0000_0000 <==> t.col == Least(s.col + n, s.cols - 1)) && (s.col + n >= 0x1_0000_0000 ==> t.col < s.col) && t.row == s.row
  {
    if s.row + n < 0x1_0000_0000 {
      assert U32(s.row + n) == s.row + n;
    }
    if s.col + n < 0x1_0000_0000 {
      assert U32(s.col + n) == s.col + n;
    }
  }

  // ----- Saving the cursor -----

  /** Some control sequence in these bytes ends in "s": only that saves the cursor. */
  predicate Saves(c: Con, bytes: seq<byte>)
    requires ConOk(c)
    decreases |bytes|
  {
    bytes != [] && ((c.esc == Csi && bytes[0] == 115) || Saves(Fed(c, bytes[0]), bytes[1..]))
  }

  lemma SavedStep(c: Con, b: byte)
    requires ConOk(c) && !(c.esc == Csi && b == 115)
    ensures Fed(c, b).savedCol == c.savedCol && Fed(c, b).savedRow == c.savedRow
  {
  }

  lemma {:induction false} SavedKept(c: Con, bytes: seq<byte>)
    requires ConOk(c) && !Saves(c, bytes)
    ensures FedAll(c, bytes).savedCol == c.savedCol && FedAll(c, bytes).savedRow == c.savedRow
    decreases |bytes|
  {
    if bytes != [] {
      SavedStep(c, bytes[0]);
      SavedKept(Fed(c, bytes[0]), bytes[1..]);
    }
  }

  /** Text that holds no escape saves nothing, whatever letters are in it. */
  lemma {:induction false} TextSavesNothing(c: Con, bytes: seq<byte>)
    requires ConOk(c) && c.esc == Normal && 27 !in bytes
    ensures !Saves(c, bytes)
    decreases |bytes|
  {
    if bytes != [] {
      StaysNormal(c, bytes[0]);
      TextSavesNothing(Fed(c, bytes[0]), bytes[1..]);
    }
  }

  lemma StaysNormal(c: Con, b: byte)
    requires ConOk(c) && c.esc == Normal && b != 27
    ensures Fed(c, b).esc == Normal
  {
  }

  /** A cursor that was saved is where it was once restored, whatever was printed, moved, erased
      or scrolled in between, if only no control sequence saved it again and none is left
      unfinished. */
  lemma {:induction false} SaveRestore(c: Con, bytes: seq<byte>)
    requires ConOk(c) && c.esc == Normal && FedAll(c, [27, 91, 115] + bytes).esc == Normal
    requires !Saves(FedAll(c, [27, 91, 115]), bytes)
    ensures FedAll(c, [27, 91, 115] + bytes + [27, 91, 117]).scr
      == FedAll(c, [27, 91, 115] + bytes).scr.(row := c.scr.row, col := c.scr.col, pending := false)
  {
    var a := SavesHere(c);
    SavedKept(a, bytes);
    var b := FedAll(a, bytes);
    Then(c, [27, 91, 115], bytes, a, b);
    var d := Restores(b);
    Then(c, [27, 91, 115] + bytes, [27, 91, 117], b, d);
  }

  lemma SavesHere(c: Con) returns (d: Con)
    requires ConOk(c) && c.esc == Normal
    ensures ConOk(d) && d == FedAll(c, [27, 91, 115]) && d.savedCol == c.scr.col && d.savedRow == c.scr.row
    ensures d.scr.rows == c.scr.rows && d.scr.cols == c.scr.cols
  {
    Intro(c);
    var a := FedAll(c, [27, 91]);
    One(a, 115);
    d := Fed(a, 115);
    Then(c, [27, 91], [115], a, d);
    assert [27, 91] + [115] == [27, 91, 115];
  }

  lemma Restores(c: Con) returns (d: Con)
    requires ConOk(c) && c.esc == Normal
    ensures ConOk(d) && d == FedAll(c, [27, 91, 117])
    ensures c.savedCol < c.scr.cols && c.savedRow < c.scr.rows ==> d.scr == c.scr.(row := c.savedRow, col := c.savedCol, pending := false)
  {
    Intro(c);
    var a := FedAll(c, [27, 91]);
    One(a, 117);
    d := Fed(a, 117);
    Then(c, [27, 91], [117], a, d);
    assert [27, 91] + [117] == [27, 91, 117];
  }
}
