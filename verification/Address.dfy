/** The board's address on the USB cable as text, and text as an address. */
module Address {
  import opened Bits

  predicate Digit(c: char)
  {
    '0' <= c <= '9'
  }

  function Value(c: char): nat
    requires Digit(c)
  {
    c as int - '0' as int
  }

  datatype Number = Number(x: nat, end: nat, digits: nat)

  /** Decimal digits from i on, at most `most` of them, after `digits` that made x. */
  function Num(v: string, i: nat, x: nat, digits: nat, most: nat): (r: Number)
    requires i <= |v| && digits <= most
    ensures i <= r.end <= |v| && digits <= r.digits <= most && r.end - i == r.digits - digits
    ensures forall k :: i <= k < r.end ==> Digit(v[k])
    decreases |v| - i
  {
    if i < |v| && Digit(v[i]) && digits < most then Num(v, i + 1, x * 10 + Value(v[i]), digits + 1, most)
    else Number(x, i, digits)
  }

  /** The loop that reads a number. */
  method ReadNumber(v: string, from: nat, most: nat) returns (x: nat, i: nat, digits: nat)
    requires from <= |v|
    ensures Number(x, i, digits) == Num(v, from, 0, 0, most)
  {
    x, i, digits := 0, from, 0;
    while i < |v| && Digit(v[i]) && digits < most
      invariant from <= i <= |v| && digits <= most
      invariant Num(v, i, x, digits, most) == Num(v, from, 0, 0, most)
    {
      x, i, digits := x * 10 + Value(v[i]), i + 1, digits + 1;
    }
  }

  // ----- Four numbers -----

  datatype Parsed = Bad | Good(address: word)

  /** Not loopback, multicast, reserved or link-local, and with room for one more below the
      broadcast address. */
  predicate Usable(a: word)
  {
    var first, last := a / 0x100_0000, a % 0x100;
    first != 0 && first != 127 && first < 224 && a / 0x1_0000 != 169 * 256 + 254 && last != 0 && last <= 253
  }

  /** The parts from `part` on, after those that made a. */
  function Parts(v: string, i: nat, part: nat, a: nat): Parsed
    requires i <= |v| && part <= 3
    decreases 4 - part, v
  {
    var n := Num(v, i, 0, 0, 4);
    if n.digits == 0 || n.x > 255 then Bad
    else
      var a' := a * 256 + n.x;
      if part < 3 then (if n.end >= |v| || v[n.end] != '.' then Bad else Parts(v, n.end + 1, part + 1, a'))
      else if n.end == |v| && a' < 0x1_0000_0000 && Usable(a') then Good(a') else Bad
  }

  function Parse(v: string): Parsed
  {
    Parts(v, 0, 0, 0)
  }

  method ShiftIn(a: nat, x: nat) returns (r: nat)
    requires x < 0x100
    ensures r == a * 256 + x
  {
    OrShift8(x, a);
    OrCommutes(x, a * 0x100);
    r := Or(a * 0x100, x);
  }

  /** parse_usb_address */
  method ParseUsbAddress(v: string) returns (r: Parsed)
    ensures r == Parse(v) && (r.Good? ==> Usable(r.address))
  {
    var a: nat, i: nat := 0, 0;
    ghost var bound: nat := 1;
    for part := 0 to 4
      invariant i <= |v| && bound == (if part == 0 then 1 else if part == 1 then 0x100 else if part == 2 then 0x1_0000 else if part == 3 then 0x100_0000 else 0x1_0000_0000)
      invariant a < bound
      invariant part < 4 ==> Parts(v, i, part, a) == Parse(v)
      invariant part == 4 ==> Parse(v) == if i == |v| && Usable(a) then Good(a) else Bad
    {
      var x, j, digits := ReadNumber(v, i, 4);
      i := j;
      if digits == 0 || x > 255 {
        return Bad;
      }
      a := ShiftIn(a, x);
      bound := bound * 0x100;
      if part < 3 {
        if i >= |v| || v[i] != '.' {
          return Bad;
        }
        i := i + 1;
      }
    }
    if i != |v| {
      return Bad;
    }
    var first, last := a / 0x100_0000, a % 0x100;
    if first == 0 || first == 127 || first >= 224 {
      return Bad;
    }
    if a / 0x1_0000 == 169 * 256 + 254 {
      return Bad;
    }
    if last == 0 || last > 253 {
      return Bad;
    }
    return Good(a);
  }

  // ----- Text of an address -----

  function Glyph(d: nat): (c: char)
    requires d < 10
    ensures Digit(c) && Value(c) == d
  {
    ('0' as int + d) as char
  }

  /** One part, in as few digits as it needs. */
  function Dec(x: nat): (s: string)
    requires x < 256
    ensures 1 <= |s| <= 3
  {
    (if x >= 100 then [Glyph(x / 100)] else []) + (if x >= 10 then [Glyph(x / 10 % 10)] else []) + [Glyph(x % 10)]
  }

  function Text(a: word): string
  {
    Dec(a / 0x100_0000) + "." + Dec(a / 0x1_0000 % 0x100) + "." + Dec(a / 0x100 % 0x100) + "." + Dec(a % 0x100)
  }

  /** ubiqos_config_address_text */
  method AddressText(a: word) returns (out: string)
    ensures out == Text(a) && |out| < 16
  {
    out := "";
    for k := 0 to 4
      invariant out == (if k == 0 then "" else if k == 1 then Dec(a / 0x100_0000) + "."
        else if k == 2 then Dec(a / 0x100_0000) + "." + Dec(a / 0x1_0000 % 0x100) + "."
        else if k == 3 then Dec(a / 0x100_0000) + "." + Dec(a / 0x1_0000 % 0x100) + "." + Dec(a / 0x100 % 0x100) + "."
        else Text(a))
    {
      var x := if k == 0 then a / 0x100_0000 else if k == 1 then a / 0x1_0000 % 0x100 else if k == 2 then a / 0x100 % 0x100 else a % 0x100;
      var part := "";
      if x >= 100 {
        part := part + [Glyph(x / 100)];
      }
      if x >= 10 {
        part := part + [Glyph(x / 10 % 10)];
      }
      part := part + [Glyph(x % 10)];
      assert part == Dec(x);
      out := out + part;
      if k < 3 {
        out := out + ".";
      }
    }
  }

  /** A part is read back, whatever that is no digit follows it. */
  lemma {:induction false} NumOfDec(v: string, i: nat, x: nat)
    requires x < 256 && i + |Dec(x)| <= |v| && v[i..i + |Dec(x)|] == Dec(x)
    requires i + |Dec(x)| < |v| ==> !Digit(v[i + |Dec(x)|])
    ensures Num(v, i, 0, 0, 4) == Number(x, i + |Dec(x)|, |Dec(x)|)
  {
    var d := Dec(x);
    assert v[i] == d[0] && (|d| > 1 ==> v[i + 1] == d[1]) && (|d| > 2 ==> v[i + 2] == d[2]);
    if x >= 100 {
      assert d == [Glyph(x / 100), Glyph(x / 10 % 10), Glyph(x % 10)];
      Three(v, i, x / 100, x / 10 % 10, x % 10);
    } else if x >= 10 {
      assert d == [Glyph(x / 10), Glyph(x % 10)];
      Two(v, i, x / 10, x % 10);
    } else {
      assert d == [Glyph(x)];
      One(v, i, x);
    }
  }

  lemma Three(v: string, i: nat, a: nat, b: nat, c: nat)
    requires i + 3 <= |v| && a < 10 && b < 10 && c < 10
    requires v[i] == Glyph(a) && v[i + 1] == Glyph(b) && v[i + 2] == Glyph(c) && (i + 3 < |v| ==> !Digit(v[i + 3]))
    ensures Num(v, i, 0, 0, 4) == Number(100 * a + 10 * b + c, i + 3, 3)
  {
    assert Num(v, i, 0, 0, 4) == Num(v, i + 1, a, 1, 4) == Num(v, i + 2, 10 * a + b, 2, 4) == Num(v, i + 3, 10 * (10 * a + b) + c, 3, 4);
  }

  lemma Two(v: string, i: nat, a: nat, b: nat)
    requires i + 2 <= |v| && a < 10 && b < 10
    requires v[i] == Glyph(a) && v[i + 1] == Glyph(b) && (i + 2 < |v| ==> !Digit(v[i + 2]))
    ensures Num(v, i, 0, 0, 4) == Number(10 * a + b, i + 2, 2)
  {
    assert Num(v, i, 0, 0, 4) == Num(v, i + 1, a, 1, 4) == Num(v, i + 2, 10 * a + b, 2, 4);
  }

  lemma One(v: string, i: nat, a: nat)
    requires i + 1 <= |v| && a < 10 && v[i] == Glyph(a) && (i + 1 < |v| ==> !Digit(v[i + 1]))
    ensures Num(v, i, 0, 0, 4) == Number(a, i + 1, 1)
  {
    assert Num(v, i, 0, 0, 4) == Num(v, i + 1, a, 1, 4);
  }

  /** Four parts with dots between them. */
  lemma {:induction false} FourParts(v: string, i1: nat, i2: nat, i3: nat, p0: nat, p1: nat, p2: nat, p3: nat, n0: nat, n1: nat, n2: nat, n3: nat, a: word)
    requires p0 < 256 && p1 < 256 && p2 < 256 && p3 < 256 && n0 > 0 && n1 > 0 && n2 > 0 && n3 > 0
    requires 0 < i1 <= |v| && 0 < i2 <= |v| && 0 < i3 <= |v| && v[i1 - 1] == '.' && v[i2 - 1] == '.' && v[i3 - 1] == '.'
    requires Num(v, 0, 0, 0, 4) == Number(p0, i1 - 1, n0) && Num(v, i1, 0, 0, 4) == Number(p1, i2 - 1, n1)
    requires Num(v, i2, 0, 0, 4) == Number(p2, i3 - 1, n2) && Num(v, i3, 0, 0, 4) == Number(p3, |v|, n3)
    requires ((p0 * 256 + p1) * 256 + p2) * 256 + p3 == a && Usable(a)
    ensures Parse(v) == Good(a)
  {
    var a1 := p0 * 256 + p1;
    var a2 := a1 * 256 + p2;
    NextPart(v, 0, 0, 0, p0, i1, n0);
    NextPart(v, i1, 1, p0, p1, i2, n1);
    NextPart(v, i2, 2, a1, p2, i3, n2);
    FinalPart(v, i3, a2, p3, n3, a);
  }

  lemma NextPart(v: string, i: nat, part: nat, a: nat, x: nat, next: nat, n: nat)
    requires part < 3 && x < 256 && n > 0 && i <= |v| && 0 < next <= |v| && v[next - 1] == '.'
    requires Num(v, i, 0, 0, 4) == Number(x, next - 1, n)
    ensures Parts(v, i, part, a) == Parts(v, next, part + 1, a * 256 + x)
  {
  }

  lemma {:induction false} FinalPart(v: string, i: nat, a: nat, x: nat, n: nat, all: word)
    requires x < 256 && n > 0 && i <= |v| && Num(v, i, 0, 0, 4) == Number(x, |v|, n) && a * 256 + x == all && Usable(all)
    ensures Parts(v, i, 3, a) == Good(all)
  {
  }

  /** A text that reads as x wherever no digit follows it. */
  ghost predicate Spells(d: string, x: nat)
  {
    |d| > 0 && forall v: string, i: nat {:trigger Num(v, i, 0, 0, 4)} ::
      i + |d| <= |v| && v[i..i + |d|] == d && (i + |d| < |v| ==> !Digit(v[i + |d|])) ==> Num(v, i, 0, 0, 4) == Number(x, i + |d|, |d|)
  }

  lemma DecSpells(x: nat)
    requires x < 256
    ensures Spells(Dec(x), x)
  {
    forall v: string, i: nat | i + |Dec(x)| <= |v| && v[i..i + |Dec(x)|] == Dec(x) && (i + |Dec(x)| < |v| ==> !Digit(v[i + |Dec(x)|]))
      ensures Num(v, i, 0, 0, 4) == Number(x, i + |Dec(x)|, |Dec(x)|)
    {
      NumOfDec(v, i, x);
    }
  }

  lemma {:induction false} PartRead(v: string, front: string, d: string, x: nat, rest: string, i: nat)
    requires Spells(d, x) && v == front + d + rest && (rest == "" || rest[0] == '.') && i == |front|
    ensures i <= |v| && Num(v, i, 0, 0, 4) == Number(x, i + |d|, |d|)
    ensures if rest == "" then i + |d| == |v| else i + |d| < |v| && v[i + |d|] == '.'
  {
    assert v[i..i + |d|] == d && (rest != "" ==> v[i + |d|] == rest[0]);
  }

  /** Every usable address is read back from its text. */
  lemma ParseOfText(a: word)
    requires Usable(a)
    ensures Parse(Text(a)) == Good(a)
  {
    var p0, p1, p2, p3 := a / 0x100_0000, a / 0x1_0000 % 0x100, a / 0x100 % 0x100, a % 0x100;
    Quads(a);
    DecSpells(p0);
    DecSpells(p1);
    DecSpells(p2);
    DecSpells(p3);
    ReadBack(a, Dec(p0), Dec(p1), Dec(p2), Dec(p3), p0, p1, p2, p3);
  }

  lemma ReadBack(a: word, d0: string, d1: string, d2: string, d3: string, p0: nat, p1: nat, p2: nat, p3: nat)
    requires p0 < 256 && p1 < 256 && p2 < 256 && p3 < 256 && Spells(d0, p0) && Spells(d1, p1) && Spells(d2, p2) && Spells(d3, p3)
    requires ((p0 * 256 + p1) * 256 + p2) * 256 + p3 == a && Usable(a)
    ensures Parse(d0 + "." + d1 + "." + d2 + "." + d3) == Good(a)
  {
    var v := d0 + "." + d1 + "." + d2 + "." + d3;
    var i1 := |d0| + 1;
    var i2 := i1 + |d1| + 1;
    var i3 := i2 + |d2| + 1;
    Grouped(d0, d1, d2, d3);
    PartRead(v, [], d0, p0, "." + d1 + "." + d2 + "." + d3, 0);
    PartRead(v, d0 + ".", d1, p1, "." + d2 + "." + d3, i1);
    PartRead(v, d0 + "." + d1 + ".", d2, p2, "." + d3, i2);
    PartRead(v, d0 + "." + d1 + "." + d2 + ".", d3, p3, "", i3);
    FourParts(v, i1, i2, i3, p0, p1, p2, p3, |d0|, |d1|, |d2|, |d3|, a);
  }

  lemma Grouped(d0: string, d1: string, d2: string, d3: string)
    ensures var v := d0 + "." + d1 + "." + d2 + "." + d3;
      v == [] + d0 + ("." + d1 + "." + d2 + "." + d3) && v == (d0 + ".") + d1 + ("." + d2 + "." + d3)
      && v == (d0 + "." + d1 + ".") + d2 + ("." + d3) && v == (d0 + "." + d1 + "." + d2 + ".") + d3 + ""
  {
    var v := d0 + "." + d1 + "." + d2 + "." + d3;
    assert v == d0 + ("." + d1 + "." + d2 + "." + d3);
    assert v == (d0 + ".") + (d1 + ("." + d2 + "." + d3));
  }

  lemma Quads(a: word)
    ensures ((a / 0x100_0000 * 256 + a / 0x1_0000 % 0x100) * 256 + a / 0x100 % 0x100) * 256 + a % 0x100 == a
  {
    var b := a / 0x100;
    var c := b / 0x100;
    assert a / 0x1_0000 == c && a / 0x100_0000 == c / 0x100;
  }
}
