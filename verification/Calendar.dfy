/** From a count of days to a date: the arithmetic of clock.c, and the calendar it has to
    agree with. */
module Calendar {
  // ----- The calendar -----

  datatype Date = Date(year: int, month: int, day: int)

  predicate Leap(y: int)
  {
    y % 4 == 0 && (y % 100 != 0 || y % 400 == 0)
  }

  function DaysIn(y: int, m: int): int
  {
    if m == 2 then (if Leap(y) then 29 else 28)
    else if m == 4 || m == 6 || m == 9 || m == 11 then 30 else 31
  }

  predicate Valid(t: Date)
  {
    1 <= t.month <= 12 && 1 <= t.day <= DaysIn(t.year, t.month)
  }

  /** The day after. */
  function Next(t: Date): Date
  {
    if t.day < DaysIn(t.year, t.month) then Date(t.year, t.month, t.day + 1)
    else if t.month < 12 then Date(t.year, t.month + 1, 1)
    else Date(t.year + 1, 1, 1)
  }

  // ----- Years that start in March -----

  /** The days of a four-hundred-year era before its year n, and before month k of a year. */
  function YearStart(n: int): int
    requires n >= 0
  {
    365 * n + n / 4 - n / 100
  }

  function MonthStart(k: int): int
  {
    (153 * k + 2) / 5
  }

  /** The number of a date, counted from the first of January 1970. */
  function DayNumber(t: Date): int
  {
    var y := if t.month <= 2 then t.year - 1 else t.year;
    var k := if t.month <= 2 then t.month + 9 else t.month - 3;
    y / 400 * 146097 + YearStart(y % 400) + MonthStart(k) + t.day - 1 - 719468
  }

  lemma Epoch()
    ensures Valid(Date(1970, 1, 1)) && DayNumber(Date(1970, 1, 1)) == 0
  {
  }

  lemma MonthStarts()
    ensures MonthStart(0) == 0 && MonthStart(1) == 31 && MonthStart(2) == 61 && MonthStart(3) == 92
    ensures MonthStart(4) == 122 && MonthStart(5) == 153 && MonthStart(6) == 184 && MonthStart(7) == 214
    ensures MonthStart(8) == 245 && MonthStart(9) == 275 && MonthStart(10) == 306 && MonthStart(11) == 337
  {
  }

  /** A year of March has 366 days exactly when the February at its end does. */
  lemma YearLength(y: int)
    ensures y % 400 < 399 ==> (y + 1) / 400 == y / 400 && (y + 1) % 400 == y % 400 + 1
    ensures y % 400 == 399 ==> (y + 1) / 400 == y / 400 + 1 && (y + 1) % 400 == 0
    ensures (if y % 400 == 399 then 146097 else YearStart(y % 400 + 1)) - YearStart(y % 400) == if Leap(y + 1) then 366 else 365
  {
    var n := y % 400;
    LeapInEra(y + 1, (y + 1) % 400);
    QuarterStep(n);
    CenturyStep(n);
  }

  lemma LeapInEra(y: int, n: int)
    requires n == y % 400
    ensures Leap(y) == Leap(n)
  {
    var q := y / 400;
    assert y == 4 * (100 * q) + n && y == 100 * (4 * q) + n;
  }

  lemma QuarterStep(n: int)
    requires n >= 0
    ensures (n + 1) / 4 - n / 4 == if (n + 1) % 4 == 0 then 1 else 0
  {
  }

  lemma CenturyStep(n: int)
    requires n >= 0
    ensures (n + 1) / 100 - n / 100 == if (n + 1) % 100 == 0 then 1 else 0
  {
  }

  /** The day after has the next number. */
  lemma NextNumber(t: Date)
    requires Valid(t)
    ensures Valid(Next(t)) && DayNumber(Next(t)) == DayNumber(t) + 1
  {
    MonthStarts();
    if t.month == 2 && t.day == DaysIn(t.year, 2) {
      YearLength(t.year - 1);
    }
  }

  // ----- One date for each number -----

  lemma YearGrows(m: int, n: int)
    requires 0 <= m <= n
    ensures YearStart(m) <= YearStart(n)
    decreases n - m
  {
    if m < n {
      QuarterStep(n - 1);
      CenturyStep(n - 1);
      YearGrows(m, n - 1);
    }
  }

  /** The parts of a valid date, counted from March: the year, and the day of it. */
  lemma Parts(t: Date) returns (y: int, k: int, doy: int)
    requires Valid(t)
    ensures y == (if t.month <= 2 then t.year - 1 else t.year) && k == (if t.month <= 2 then t.month + 9 else t.month - 3)
    ensures 0 <= k <= 11 && doy == MonthStart(k) + t.day - 1
    ensures 0 <= doy < if Leap(y + 1) then 366 else 365
    ensures k < 11 ==> MonthStart(k) <= doy < MonthStart(k + 1)
    ensures k == 11 ==> MonthStart(k) <= doy
    ensures DayNumber(t) + 719468 == y / 400 * 146097 + YearStart(y % 400) + doy
  {
    y := if t.month <= 2 then t.year - 1 else t.year;
    k := if t.month <= 2 then t.month + 9 else t.month - 3;
    doy := MonthStart(k) + t.day - 1;
    MonthStarts();
  }

  /** The day of an era lies in its year and in no other. */
  lemma EraDay(y: int, doy: int)
    requires 0 <= doy < if Leap(y + 1) then 366 else 365
    ensures 0 <= YearStart(y % 400) + doy < 146097
    ensures y % 400 < 399 ==> YearStart(y % 400) + doy < YearStart(y % 400 + 1)
  {
    YearLength(y);
    if y % 400 < 399 {
      YearGrows(y % 400 + 1, 399);
    }
  }

  lemma SameYear(m: int, n: int, a: int, b: int)
    requires 0 <= m < 400 && 0 <= n < 400 && 0 <= a && 0 <= b && YearStart(m) + a == YearStart(n) + b
    requires m < 399 ==> YearStart(m) + a < YearStart(m + 1)
    requires n < 399 ==> YearStart(n) + b < YearStart(n + 1)
    ensures m == n && a == b
  {
    if m < n {
      YearGrows(m + 1, n);
    } else if n < m {
      YearGrows(n + 1, m);
    }
  }

  lemma SameMonth(j: int, k: int, doy: int)
    requires 0 <= j <= 11 && 0 <= k <= 11 && MonthStart(j) <= doy && MonthStart(k) <= doy
    requires (j < 11 ==> doy < MonthStart(j + 1)) && (k < 11 ==> doy < MonthStart(k + 1))
    ensures j == k
  {
    MonthStarts();
  }

  /** Two dates with the same number are the same date. */
  lemma OneDate(t: Date, u: Date)
    requires Valid(t) && Valid(u) && DayNumber(t) == DayNumber(u)
    ensures t == u
  {
    var y, k, a := CountedParts(t);
    var x, j, b := CountedParts(u);
    SameCount(y, a, x, b);
    SameMonth(k, j, a);
    SamePlace(t, u);
  }

  lemma CountedParts(t: Date) returns (y: int, k: int, a: int)
    requires Valid(t)
    ensures y == (if t.month <= 2 then t.year - 1 else t.year) && k == (if t.month <= 2 then t.month + 9 else t.month - 3)
    ensures 0 <= k <= 11 && 0 <= a == MonthStart(k) + t.day - 1 && (k < 11 ==> a < MonthStart(k + 1)) && MonthStart(k) <= a
    ensures YearStart(y % 400) + a < 146097 && (y % 400 < 399 ==> YearStart(y % 400) + a < YearStart(y % 400 + 1))
    ensures DayNumber(t) + 719468 == y / 400 * 146097 + YearStart(y % 400) + a
  {
    y, k, a := Parts(t);
    EraDay(y, a);
  }

  lemma SamePlace(t: Date, u: Date)
    requires Valid(t) && Valid(u) && t.day == u.day
    requires (if t.month <= 2 then t.year - 1 else t.year) == if u.month <= 2 then u.year - 1 else u.year
    requires (if t.month <= 2 then t.month + 9 else t.month - 3) == if u.month <= 2 then u.month + 9 else u.month - 3
    ensures t == u
  {
  }

  lemma SameCount(y: int, a: int, x: int, b: int)
    requires 0 <= a && 0 <= b && y / 400 * 146097 + YearStart(y % 400) + a == x / 400 * 146097 + YearStart(x % 400) + b
    requires YearStart(y % 400) + a < 146097 && (y % 400 < 399 ==> YearStart(y % 400) + a < YearStart(y % 400 + 1))
    requires YearStart(x % 400) + b < 146097 && (x % 400 < 399 ==> YearStart(x % 400) + b < YearStart(x % 400 + 1))
    ensures y == x && a == b
  {
    SameEra(y / 400, YearStart(y % 400) + a, x / 400, YearStart(x % 400) + b);
    SameYear(y % 400, x % 400, a, b);
  }

  lemma SameEra(e: int, d: int, f: int, c: int)
    requires e * 146097 + d == f * 146097 + c && 0 <= d < 146097 && 0 <= c < 146097
    ensures e == f && d == c
  {
  }

  // ----- civil_from_days -----

  /** Division as C does it, towards zero. */
  function Trunc(a: int, b: int): int
    requires b > 0
  {
    if a >= 0 then a / b else -((-a) / b)
  }

  /** The year of the era is found without a loop: the corrections for the days that leap
      years add cancel, one of them exactly on the last day of the era. */
  method YearOfEra(doe: int) returns (yoe: int)
    requires 0 <= doe < 146097
    ensures 0 <= yoe < 400 && YearStart(yoe) <= doe
    ensures doe - YearStart(yoe) < if Leap(yoe + 1) then 366 else 365
  {
    yoe := (doe - doe / 1460 + doe / 36524 - doe / 146096) / 365;
    ghost var c := if doe / 36524 == 4 then 3 else doe / 36524;
    ghost var r := doe - 36524 * c;
    ghost var q := r / 1461;
    ghost var s := r - 1461 * q;
    ghost var t := if s / 365 == 4 then 3 else s / 365;
    Corrections(doe, c, q, s);
    YearFound(c, q, s, t);
    YearStartIs(c, q, t);
    LastDayLeap(c, q, s, t);
  }

  lemma Corrections(doe: int, c: int, q: int, s: int)
    requires 0 <= c <= 3 && 0 <= q <= 24 && 0 <= s <= 1460 && doe == 36524 * c + 1461 * q + s
    requires doe < 146097 && 1461 * q + s <= (if c == 3 then 36524 else 36523)
    ensures doe / 36524 - doe / 146096 == c
    ensures doe - doe / 1460 + c == 365 * (100 * c + 4 * q) + s - (24 * c + q + s) / 1460
  {
    assert doe == 1460 * (25 * c + q) + (24 * c + q + s);
    assert doe / 1460 == 25 * c + q + (24 * c + q + s) / 1460;
  }

  lemma YearFound(c: int, q: int, s: int, t: int)
    requires 0 <= c <= 3 && 0 <= q <= 24 && 0 <= s <= 1460 && t == (if s / 365 == 4 then 3 else s / 365)
    ensures (365 * (100 * c + 4 * q) + s - (24 * c + q + s) / 1460) / 365 == 100 * c + 4 * q + t
  {
    var e := (24 * c + q + s) / 1460;
    assert 0 <= e <= 1;
    assert 365 * t <= s - e < 365 * t + 365;
    assert 365 * (100 * c + 4 * q) + s - e == 365 * (100 * c + 4 * q + t) + (s - e - 365 * t);
  }

  lemma YearStartIs(c: int, q: int, t: int)
    requires 0 <= c <= 3 && 0 <= q <= 24 && 0 <= t <= 3
    ensures YearStart(100 * c + 4 * q + t) == 36524 * c + 1461 * q + 365 * t
  {
    assert (100 * c + 4 * q + t) / 4 == 25 * c + q;
    assert (100 * c + 4 * q + t) / 100 == c;
  }

  /** The year's 366th day is there only when the year after it is a leap year. */
  lemma LastDayLeap(c: int, q: int, s: int, t: int)
    requires 0 <= c <= 3 && 0 <= q <= 24 && 0 <= s <= 1460 && t == (if s / 365 == 4 then 3 else s / 365)
    requires 1461 * q + s <= (if c == 3 then 36524 else 36523)
    ensures 0 <= s - 365 * t < if Leap(100 * c + 4 * q + t + 1) then 366 else 365
  {
    if s == 1460 {
      var n := 100 * c + 4 * q + 4;
      assert n == 4 * (25 * c + q + 1);
      if q == 24 {
        assert c == 3 && n == 400;
      } else {
        assert n == 100 * c + 4 * (q + 1) && 0 < 4 * (q + 1) < 100;
      }
    }
  }

  predicate Int32(x: int)
  {
    -0x8000_0000 <= x < 0x8000_0000
  }

  /** Every signed number that civil_from_days computes fits 32 bits. */
  predicate Computed(days: int)
  {
    var z := days + 719468;
    var n := if z >= 0 then z else z - 146096;
    var era := Trunc(n, 146097);
    Int32(days) && Int32(z) && Int32(n) && Int32(era * 146097) && Int32(z - era * 146097) && Int32(era * 400 - 1) && Int32(era * 400 + 401)
  }

  /** Which day numbers those are: fewer than z + 719468 alone would leave. */
  lemma RangeIs(days: int)
    ensures Computed(days) <==> Int32(days) && -0x8000_0000 + 146096 <= days + 719468 < 0x8000_0000
  {
    var z := days + 719468;
    EraIs(z, Trunc(if z >= 0 then z else z - 146096, 146097));
  }

  /** civil_from_days, where none of its 32-bit numbers overflows: the one valid date with
      that number. */
  method CivilFromDays(days: int) returns (t: Date)
    requires -0x8000_0000 + 146096 <= days + 719468 < 0x8000_0000
    ensures Valid(t) && DayNumber(t) == days
    ensures forall u :: Valid(u) && DayNumber(u) == days ==> u == t
  {
    var z := days + 719468;
    var era := Trunc(if z >= 0 then z else z - 146096, 146097);
    var doe := z - era * 146097;
    EraIs(z, era);
    var yoe := YearOfEra(doe);
    var yr := yoe + era * 400;
    var doy := doe - (365 * yoe + yoe / 4 - yoe / 100);
    var mp := (5 * doy + 2) / 153;
    var d := doy - (153 * mp + 2) / 5 + 1;
    var m := mp + (if mp < 10 then 3 else -9);
    var y := yr + (if m <= 2 then 1 else 0);
    t := Date(y, m, d);
    assert yr / 400 == era && yr % 400 == yoe;
    assert Leap(yr + 1) == Leap(yoe + 1) by {
      LeapShift(yoe + 1, era);
    }
    MonthFound(doy, mp);
    MonthStarts();
    assert Valid(t) && DayNumber(t) == days;
    forall u | Valid(u) && DayNumber(u) == days
      ensures u == t
    {
      OneDate(u, t);
    }
  }

  lemma EraIs(z: int, era: int)
    requires era == Trunc(if z >= 0 then z else z - 146096, 146097)
    ensures 0 <= z - era * 146097 < 146097
  {
    if z < 0 {
      assert (146096 - z) / 146097 == -era;
    }
  }

  lemma LeapShift(y: int, era: int)
    ensures Leap(y + era * 400) == Leap(y)
  {
    var x := y + era * 400;
    assert x == y + 4 * (100 * era) && x == y + 100 * (4 * era) && x == y + 400 * era;
    Multiple(y, 100 * era, 4);
    Multiple(y, 4 * era, 100);
    Multiple(y, era, 400);
  }

  lemma {:induction false} Multiple(y: int, k: int, n: int)
    requires n == 4 || n == 100 || n == 400
    ensures (y + n * k) % n == y % n
  {
  }

  /** The month holds the day. */
  lemma MonthFound(doy: int, mp: int)
    requires 0 <= doy <= 365 && mp == (5 * doy + 2) / 153
    ensures 0 <= mp <= 11 && MonthStart(mp) <= doy && (mp < 11 ==> doy < MonthStart(mp + 1))
  {
  }

  /** Successive numbers are successive dates. */
  lemma Successive(t: Date, u: Date)
    requires Valid(t) && Valid(u) && DayNumber(u) == DayNumber(t) + 1
    ensures u == Next(t)
  {
    NextNumber(t);
    OneDate(u, Next(t));
  }
}
