/** The offset from UTC as a setting: what is read, and exactly which texts are one. */
module Timezones {
  import Address

  datatype Minutes = NoOffset | East(minutes: int)

  /** An offset: a sign, hours, and minutes after a colon. */
  function Timezone(v: string): Minutes
  {
    var from := if v != "" && (v[0] == '+' || v[0] == '-') then 1 else 0;
    var west := v != "" && v[0] == '-';
    var h := Address.Num(v, from, 0, 0, 3);
    if h.digits == 0 then NoOffset
    else
      var m := if h.end < |v| && v[h.end] == ':' then Address.Num(v, h.end + 1, 0, 0, 3) else Address.Number(0, h.end, 0);
      if m.end != |v| || h.x > 14 || m.x > 59 then NoOffset else East(if west then -(h.x * 60 + m.x) else h.x * 60 + m.x)
  }

  /** parse_timezone */
  method ParseTimezone(v: string) returns (r: Minutes)
    ensures r == Timezone(v)
  {
    var i: nat, sign: int := 0, 1;
    if i < |v| && (v[i] == '+' || v[i] == '-') {
      if v[i] == '-' {
        sign := -1;
      }
      i := i + 1;
    }
    var hours, j, digits := Address.ReadNumber(v, i, 3);
    i := j;
    if digits == 0 {
      return NoOffset;
    }
    var mins := 0;
    if i < |v| && v[i] == ':' {
      mins, i, digits := Address.ReadNumber(v, i + 1, 3);
      if digits == 0 {
        mins := 0;
      }
    }
    if i != |v| || hours > 14 || mins > 59 {
      return NoOffset;
    }
    Signed(sign, hours * 60 + mins);
    return East(sign * (hours * 60 + mins));
  }

  lemma Signed(sign: int, n: nat)
    ensures (sign == 1 ==> sign * n == n) && (sign == -1 ==> sign * n == 0 - n)
  {
  }

  /** The parts of an offset as it is written. */
  datatype Offset = Offset(sign: string, hours: string, colon: bool, mins: string)

  predicate AllDigits(s: string)
  {
    forall k :: 0 <= k < |s| ==> Address.Digit(s[k])
  }

  /** The number that digits make after x. */
  function Decimal(x: nat, s: string): nat
    requires AllDigits(s)
    decreases |s|
  {
    if s == "" then x else Decimal(x * 10 + Address.Value(s[0]), s[1..])
  }

  /** A sign or none, at most fourteen hours, and after a colon at most 59 minutes or nothing. */
  predicate OffsetOk(o: Offset)
  {
    && (o.sign == "" || o.sign == "+" || o.sign == "-") && AllDigits(o.hours) && AllDigits(o.mins)
    && 1 <= |o.hours| <= 3 && |o.mins| <= 3 && (!o.colon ==> o.mins == "") && Decimal(0, o.hours) <= 14 && Decimal(0, o.mins) <= 59
  }

  function OffsetText(o: Offset): string
  {
    o.sign + (o.hours + if o.colon then ":" + o.mins else "")
  }

  function OffsetMinutes(o: Offset): int
    requires OffsetOk(o)
  {
    var m := 60 * Decimal(0, o.hours) + Decimal(0, o.mins);
    if o.sign == "-" then -m else m
  }

  /** The number that is read is that of the digits it reads, as many as there are or may be. */
  lemma {:induction false} NumIs(v: string, i: nat, x: nat, digits: nat, most: nat)
    requires i <= |v| && digits <= most
    ensures var r := Address.Num(v, i, x, digits, most);
      AllDigits(v[i..r.end]) && r.x == Decimal(x, v[i..r.end]) && (r.end == |v| || !Address.Digit(v[r.end]) || r.digits == most)
    decreases |v| - i
  {
    var r := Address.Num(v, i, x, digits, most);
    if i < |v| && Address.Digit(v[i]) && digits < most {
      NumIs(v, i + 1, x * 10 + Address.Value(v[i]), digits + 1, most);
      assert v[i..r.end][1..] == v[i + 1..r.end];
    } else {
      assert v[i..r.end] == "";
    }
  }

  lemma {:induction false} NumReads(v: string, i: nat, d: string)
    requires i + |d| <= |v| && v[i..i + |d|] == d && AllDigits(d) && |d| <= 3 && (i + |d| < |v| ==> !Address.Digit(v[i + |d|]))
    ensures Address.Num(v, i, 0, 0, 3) == Address.Number(Decimal(0, d), i + |d|, |d|)
  {
    var r := Address.Num(v, i, 0, 0, 3);
    NumIs(v, i, 0, 0, 3);
    assert forall k :: i <= k < i + |d| ==> v[k] == d[k - i];
    assert r.end >= i + |d|;
  }

  /** A value is taken for a time zone exactly when it is an offset that is written so, and it
      means so many minutes. */
  lemma {:induction false} TimezoneIs(v: string, minutes: int)
    ensures Timezone(v) == East(minutes) <==> exists o :: OffsetOk(o) && OffsetText(o) == v && OffsetMinutes(o) == minutes
  {
    if Timezone(v) == East(minutes) {
      var o := TimezoneParts(v);
      assert OffsetOk(o) && OffsetText(o) == v && OffsetMinutes(o) == minutes;
    }
    if o :| OffsetOk(o) && OffsetText(o) == v && OffsetMinutes(o) == minutes {
      TimezoneOf(o, v);
    }
  }

  lemma {:induction false} TimezoneParts(v: string) returns (o: Offset)
    requires Timezone(v).East?
    ensures OffsetOk(o) && OffsetText(o) == v && Timezone(v) == East(OffsetMinutes(o))
  {
    var from := if v != "" && (v[0] == '+' || v[0] == '-') then 1 else 0;
    var h := Address.Num(v, from, 0, 0, 3);
    NumIs(v, from, 0, 0, 3);
    if h.end < |v| {
      NumIs(v, h.end + 1, 0, 0, 3);
      o := WithMinutes(v, from, h, Address.Num(v, h.end + 1, 0, 0, 3));
    } else {
      o := WithHours(v, from, h);
    }
  }

  lemma {:induction false} WithMinutes(v: string, from: nat, h: Address.Number, m: Address.Number) returns (o: Offset)
    requires Timezone(v).East? && from == (if v != "" && (v[0] == '+' || v[0] == '-') then 1 else 0)
    requires h == Address.Num(v, from, 0, 0, 3) && h.end < |v| && m == Address.Num(v, h.end + 1, 0, 0, 3)
    requires AllDigits(v[from..h.end]) && h.x == Decimal(0, v[from..h.end])
    requires AllDigits(v[h.end + 1..m.end]) && m.x == Decimal(0, v[h.end + 1..m.end])
    ensures OffsetOk(o) && OffsetText(o) == v && Timezone(v) == East(OffsetMinutes(o))
  {
    assert v[h.end] == ':' && m.end == |v|;
    var sign, hs, ms := v[..from], v[from..h.end], v[h.end + 1..m.end];
    SignIs(v, from, sign);
    Zone(v, from, h, m);
    o := Offset(sign, hs, true, ms);
    TextWithMinutes(v, from, h.end, o);
  }

  lemma TextWithMinutes(v: string, from: nat, n: nat, o: Offset)
    requires from <= n < |v| && v[n] == ':' && o == Offset(v[..from], v[from..n], true, v[n + 1..|v|])
    ensures OffsetText(o) == v
  {
    assert v == v[..from] + (v[from..n] + (":" + v[n + 1..|v|]));
  }

  lemma {:induction false} WithHours(v: string, from: nat, h: Address.Number) returns (o: Offset)
    requires Timezone(v).East? && from == (if v != "" && (v[0] == '+' || v[0] == '-') then 1 else 0)
    requires h == Address.Num(v, from, 0, 0, 3) && h.end == |v| && AllDigits(v[from..h.end]) && h.x == Decimal(0, v[from..h.end])
    ensures OffsetOk(o) && OffsetText(o) == v && Timezone(v) == East(OffsetMinutes(o))
  {
    var sign, hs := v[..from], v[from..h.end];
    assert v == sign + (hs + "");
    SignIs(v, from, sign);
    o := Offset(sign, hs, false, "");
  }

  lemma SignIs(v: string, from: nat, sign: string)
    requires from == (if v != "" && (v[0] == '+' || v[0] == '-') then 1 else 0) && sign == v[..from]
    ensures (sign == "" || sign == "+" || sign == "-") && (sign == "-" <==> v != "" && v[0] == '-')
  {
  }

  lemma {:induction false} TimezoneOf(o: Offset, v: string)
    requires OffsetOk(o) && v == OffsetText(o)
    ensures Timezone(v) == East(OffsetMinutes(o))
  {
    var from := |o.sign|;
    TextParts(o, v, from, from + |o.hours|);
    ReadParts(v, from, from + |o.hours|, o.hours, o.mins, o.colon, o.sign == "-");
  }

  lemma {:induction false} ReadParts(v: string, from: nat, n: nat, hs: string, ms: string, colon: bool, west: bool)
    requires v != "" && from < n <= |v| && from == (if v[0] == '+' || v[0] == '-' then 1 else 0) && (v[0] == '-' <==> west)
    requires v[from..n] == hs && (n < |v| <==> colon) && (if colon then v[n] == ':' && v[n + 1..] == ms else ms == "")
    requires AllDigits(hs) && AllDigits(ms) && |hs| <= 3 && |ms| <= 3 && Decimal(0, hs) <= 14 && Decimal(0, ms) <= 59
    ensures var m := 60 * Decimal(0, hs) + Decimal(0, ms); Timezone(v) == East(if west then -m else m)
  {
    if colon {
      assert v[n + 1..|v|] == ms;
      NumReads(v, n + 1, ms);
    }
    NumReads(v, from, hs);
    ReadAs(v, from, n, Decimal(0, hs), |hs|, Decimal(0, ms), |ms|, colon, west);
  }

  lemma TextParts(o: Offset, v: string, from: nat, n: nat)
    requires OffsetOk(o) && v == OffsetText(o) && from == |o.sign| && n == from + |o.hours|
    ensures n <= |v| && v[from..n] == o.hours && (n < |v| <==> o.colon) && (o.colon ==> v[n] == ':' && v[n + 1..] == o.mins)
    ensures from == (if v[0] == '+' || v[0] == '-' then 1 else 0) && (v[0] == '-' <==> o.sign == "-")
  {
    assert v[from..n] == o.hours;
    assert v[from] == o.hours[0];
    assert o.sign != "" ==> v[0] == o.sign[0];
  }

  lemma {:induction false} ReadAs(v: string, from: nat, n: nat, h: nat, hd: nat, m: nat, md: nat, colon: bool, west: bool)
    requires v != "" && from <= n <= |v| && from == (if v[0] == '+' || v[0] == '-' then 1 else 0) && (v[0] == '-' <==> west)
    requires Address.Num(v, from, 0, 0, 3) == Address.Number(h, n, hd) && hd > 0 && h <= 14 && m <= 59 && (n < |v| <==> colon)
    requires colon ==> v[n] == ':' && Address.Num(v, n + 1, 0, 0, 3) == Address.Number(m, |v|, md)
    requires !colon ==> m == 0
    ensures Timezone(v) == East(if west then -(60 * h + m) else 60 * h + m)
  {
    Zone(v, from, Address.Number(h, n, hd), if colon then Address.Number(m, |v|, md) else Address.Number(0, n, 0));
  }

  lemma {:induction false} Zone(v: string, from: nat, h: Address.Number, m: Address.Number)
    requires v != "" && from == (if v[0] == '+' || v[0] == '-' then 1 else 0)
    requires h == Address.Num(v, from, 0, 0, 3) && h.digits > 0 && h.x <= 14 && m.x <= 59 && m.end == |v|
    requires m == if h.end < |v| && v[h.end] == ':' then Address.Num(v, h.end + 1, 0, 0, 3) else Address.Number(0, h.end, 0)
    ensures Timezone(v) == East(if v[0] == '-' then -(h.x * 60 + m.x) else h.x * 60 + m.x)
  {
  }
}
