/**
  Calendar arithmetic of muduo/base/Date.cc: the closed-form Julian day formulas, related to an
  independent description of the proleptic Gregorian calendar (month lengths, leap years, successor).
 */
module Date {

  /** C++ integer division: truncates toward zero, for a positive divisor. */
  function Div(x: int, y: int): int
    requires y > 0
  {
    if x >= 0 then x / y else -((-x) / y)
  }

  lemma DivNat(x: nat, y: int)
    requires y > 0
    ensures Div(x, y) == x / y
  {}

  datatype YearMonthDay = YearMonthDay(year: int, month: int, day: int)

  function JulianDayNumber(year: int, month: int, day: int): int
  {
    var a := Div(14 - month, 12);
    var y := year + 4800 - a;
    var m := month + 12 * a - 3;
    day + Div(153 * m + 2, 5) + y * 365 + Div(y, 4) - Div(y, 100) + Div(y, 400) - 32045
  }

  function GetYearMonthDay(julianDayNumber: int): YearMonthDay
  {
    var a := julianDayNumber + 32044;
    var b := Div(4 * a + 3, 146097);
    var c := a - Div(b * 146097, 4);
    var d := Div(4 * c + 3, 1461);
    var e := c - Div(1461 * d, 4);
    var m := Div(5 * e + 2, 153);
    YearMonthDay(b * 100 + d - 4800 + Div(m, 10),
                 m + 3 - 12 * Div(m, 10),
                 e - Div(153 * m + 2, 5) + 1)
  }

  const FIRST_JULIAN_DAY := -32044
  const JULIAN_DAY_OF_1970_01_01 := JulianDayNumber(1970, 1, 1)

  // ---------- the calendar, described without the formulas ----------

  predicate IsLeapYear(year: int) {
    year % 400 == 0 || (year % 4 == 0 && year % 100 != 0)
  }

  function DaysOfMonth(year: int, month: int): int
    requires 1 <= month <= 12
  {
    if month == 2 then (if IsLeapYear(year) then 29 else 28)
    else if month in {4, 6, 9, 11} then 30
    else 31
  }

  predicate IsCalendarDate(d: YearMonthDay) {
    1 <= d.month <= 12 && 1 <= d.day <= DaysOfMonth(d.year, d.month)
  }

  /** The dates the formulas are meant for: -4800-03-01 and later. */
  predicate InScope(d: YearMonthDay) {
    IsCalendarDate(d) && (d.year > -4800 || (d.year == -4800 && d.month >= 3))
  }

  function NextDate(d: YearMonthDay): YearMonthDay
    requires IsCalendarDate(d)
  {
    if d.day < DaysOfMonth(d.year, d.month) then d.(day := d.day + 1)
    else if d.month < 12 then YearMonthDay(d.year, d.month + 1, 1)
    else YearMonthDay(d.year + 1, 1, 1)
  }

  function ToJulianDay(d: YearMonthDay): int { JulianDayNumber(d.year, d.month, d.day) }

  // ---------- floor inverses ----------

  /** Days before century b, before year d of a century, before month m of a year starting in March. */
  function CenturyStart(b: nat): nat { 146097 * b / 4 }
  function YearStart(d: nat): nat { 1461 * d / 4 }
  function MonthStart(m: nat): nat { (153 * m + 2) / 5 }

  lemma CenturyOf(x: nat, n: nat)
    ensures (4 * x + 3) / 146097 == n <==> CenturyStart(n) <= x < CenturyStart(n + 1)
  {}

  lemma YearOf(x: nat, n: nat)
    ensures (4 * x + 3) / 1461 == n <==> YearStart(n) <= x < YearStart(n + 1)
  {}

  lemma MonthOf(x: nat, n: nat)
    ensures (5 * x + 2) / 153 == n <==> MonthStart(n) <= x < MonthStart(n + 1)
  {}

  /** A day count written as century b, year d, month m (0 is March) and day offset k. */
  predicate IsPosition(b: nat, d: nat, m: nat, k: nat) {
    && m <= 11 && d <= 99
    && MonthStart(m) + k < MonthStart(m + 1)
    && YearStart(d) + MonthStart(m) + k < YearStart(d + 1)
    && CenturyStart(b) + YearStart(d) + MonthStart(m) + k < CenturyStart(b + 1)
  }

  function DateAt(b: nat, d: nat, m: nat, k: nat): YearMonthDay {
    YearMonthDay(100 * b + d - 4800 + m / 10, m + 3 - 12 * (m / 10), k + 1)
  }

  function DayCount(b: nat, d: nat, m: nat, k: nat): nat {
    CenturyStart(b) + YearStart(d) + MonthStart(m) + k
  }

  lemma LeapCentury(c: int)
    ensures IsLeapYear(100 * c) <==> c % 4 == 0
  {
    assert 100 * c % 400 == 100 * (c % 4);
  }

  lemma RemainderBy100(q: int, r: nat)
    requires r < 100
    ensures (100 * q + r) % 100 == r
  {}

  lemma RemainderBy4(q: int, r: nat)
    ensures (4 * q + r) % 4 == r % 4
  {}

  lemma QuotientBy400(y: int)
    ensures y % 400 == 0 ==> y % 100 == 0
  {
    if y % 400 == 0 {
      RemainderBy100(4 * (y / 400), 0);
    }
  }

  lemma LeapInCentury(c: int, e: nat)
    requires 1 <= e <= 99
    ensures IsLeapYear(100 * c + e) <==> e % 4 == 0
  {
    RemainderBy100(c, e);
    RemainderBy4(25 * c, e);
    QuotientBy400(100 * c + e);
  }

  lemma LeapYearAt(b: nat, d: nat)
    requires d <= 99
    ensures IsLeapYear(100 * b + d - 4800 + 1) <==> (if d < 99 then (d + 1) % 4 == 0 else (b + 1) % 4 == 0)
  {
    hide IsLeapYear;
    if d < 99 {
      LeapInCentury(b - 48, d + 1);
      assert 100 * b + d - 4800 + 1 == 100 * (b - 48) + (d + 1);
    } else {
      LeapCentury(b - 47);
      assert 100 * b + d - 4800 + 1 == 100 * (b - 47);
    }
  }

  /** A month other than February lies within its year and century. */
  lemma MonthFits(b: nat, d: nat, m: nat, k: nat)
    requires m <= 10 && d <= 99 && MonthStart(m) + k < MonthStart(m + 1)
    ensures IsPosition(b, d, m, k)
  {
    MonthStartGrows(m + 1);
    MonthLength(0);
    YearLength(d);
    YearStartGrows(d);
    CenturyLength(b);
    hide MonthStart, YearStart, CenturyStart;
  }

  lemma MonthStartGrows(m: nat)
    requires m <= 11
    ensures MonthStart(m) <= MonthStart(11)
  {}

  lemma YearStartGrows(d: nat)
    requires d <= 99
    ensures YearStart(d) <= YearStart(99) && (d < 99 ==> YearStart(d + 1) <= YearStart(99))
  {}

  /** February, the last month of a year starting in March, ends with that year and with the century. */
  lemma FebruaryFits(b: nat, d: nat, k: nat)
    requires d <= 99
    ensures IsPosition(b, d, 11, k) <==> k < (if IsLeapYear(100 * b + d - 4800 + 1) then 29 else 28)
  {
    LeapYearAt(b, d);
    MonthLength(11);
    YearLength(d);
    YearStartGrows(d);
    CenturyLength(b);
    hide MonthStart, YearStart, CenturyStart, IsLeapYear;
  }

  lemma PositionIsCalendarDate(b: nat, d: nat, m: nat, k: int)
    requires m <= 11 && d <= 99 && k >= 0
    ensures IsPosition(b, d, m, k) <==> IsCalendarDate(DateAt(b, d, m, k))
  {
    MonthLength(m);
    hide MonthStart, YearStart, CenturyStart, IsLeapYear;
    if m == 11 {
      FebruaryFits(b, d, k);
      hide IsPosition;
    } else {
      if MonthStart(m) + k < MonthStart(m + 1) {
        MonthFits(b, d, m, k);
      }
    }
  }

  lemma MonthLength(m: nat)
    requires m <= 11
    ensures m <= 10 ==> MonthStart(m + 1) - MonthStart(m) == (if m in {1, 3, 6, 8} then 30 else 31)
    ensures MonthStart(11) == 337 && MonthStart(m) <= 337 && MonthStart(12) == 367
  {}

  lemma YearLength(d: nat)
    ensures YearStart(d + 1) - YearStart(d) == (if (d + 1) % 4 == 0 then 366 else 365)
    ensures YearStart(99) == 36159 && YearStart(100) == 36525
  {}

  lemma CenturyLength(b: nat)
    ensures CenturyStart(b + 1) - CenturyStart(b) == (if (b + 1) % 4 == 0 then 36525 else 36524)
  {
    CenturyStartIs(b);
    CenturyStartIs(b + 1);
    hide CenturyStart;
  }

  lemma CenturyStartIs(b: nat)
    ensures CenturyStart(b) == 36524 * b + b / 4
  {
    assert 146097 * b == 4 * (36524 * b) + b;
  }

  // ---------- the formulas against the calendar ----------

  /** Days before a March-based year, counted by leap years or by centuries. */
  lemma YearsByCentury(b: nat, d: nat)
    requires d <= 99
    ensures var y := 100 * b + d;
            365 * y + y / 4 - y / 100 + y / 400 == CenturyStart(b) + YearStart(d)
  {
    var y := 100 * b + d;
    assert y / 4 == 25 * b + d / 4;
    assert y / 100 == b;
    assert y / 400 == b / 4;
    CenturyStartIs(b);
    assert YearStart(d) == 365 * d + d / 4;
  }

  lemma JulianDayOfPosition(b: nat, d: nat, m: nat, k: nat)
    requires m <= 11 && d <= 99
    ensures ToJulianDay(DateAt(b, d, m, k)) == DayCount(b, d, m, k) + FIRST_JULIAN_DAY
  {
    YearsByCentury(b, d);
    var a := Div(14 - DateAt(b, d, m, k).month, 12);
    assert a == m / 10;
  }

  lemma StartsAsComputed(b: nat, d: nat, m: nat)
    ensures Div(b * 146097, 4) == CenturyStart(b) && Div(1461 * d, 4) == YearStart(d)
    ensures Div(153 * m + 2, 5) == MonthStart(m)
  {}

  lemma DateOfPosition(b: nat, d: nat, m: nat, k: nat)
    requires IsPosition(b, d, m, k)
    ensures GetYearMonthDay(DayCount(b, d, m, k) + FIRST_JULIAN_DAY) == DateAt(b, d, m, k)
  {
    var a := DayCount(b, d, m, k);
    hide CenturyStart, YearStart, MonthStart, Div;
    StartsAsComputed(b, d, m);
    var c: nat := a - CenturyStart(b);
    var e: nat := c - YearStart(d);
    assert Div(4 * a + 3, 146097) == b by { DivNat(4 * a + 3, 146097); CenturyOf(a, b); }
    assert Div(4 * c + 3, 1461) == d by { DivNat(4 * c + 3, 1461); YearOf(c, d); }
    assert Div(5 * e + 2, 153) == m by { DivNat(5 * e + 2, 153); MonthOf(e, m); }
    assert Div(m, 10) == m / 10 by { DivNat(m, 10); }
  }

  /** Every day count from 0 on is at some position. */
  lemma PositionOfDay(a: nat) returns (b: nat, d: nat, m: nat, k: nat)
    ensures IsPosition(b, d, m, k) && DayCount(b, d, m, k) == a
  {
    b := (4 * a + 3) / 146097;
    CenturyOf(a, b);
    CenturyLength(b);
    var c: nat := a - CenturyStart(b);
    d := (4 * c + 3) / 1461;
    YearOf(c, d);
    YearLength(d);
    var e: nat := c - YearStart(d);
    m := (5 * e + 2) / 153;
    MonthOf(e, m);
    k := e - MonthStart(m);
    assert m <= 11 by { MonthLength(11); }
    assert d <= 99 by { YearLength(99); }
  }

  lemma PositionOfDate(date: YearMonthDay) returns (b: nat, d: nat, m: nat, k: nat)
    requires InScope(date)
    ensures IsPosition(b, d, m, k) && DateAt(b, d, m, k) == date
  {
    m := if date.month >= 3 then date.month - 3 else date.month + 9;
    assert m / 10 == (if date.month >= 3 then 0 else 1);
    var y: nat := date.year + 4800 - m / 10;
    b, d, k := y / 100, y % 100, date.day - 1;
    assert y == 100 * b + d;
    PositionIsCalendarDate(b, d, m, k);
    hide IsPosition, IsLeapYear;
  }

  /** Every Julian day from -32044 on is turned into a calendar date and back into itself. */
  lemma DayRoundTrip(julianDayNumber: int)
    requires julianDayNumber >= FIRST_JULIAN_DAY
    ensures InScope(GetYearMonthDay(julianDayNumber))
    ensures ToJulianDay(GetYearMonthDay(julianDayNumber)) == julianDayNumber
  {
    var b, d, m, k := PositionOfDay(julianDayNumber - FIRST_JULIAN_DAY);
    DateOfPosition(b, d, m, k);
    PositionIsCalendarDate(b, d, m, k);
    JulianDayOfPosition(b, d, m, k);
  }

  /** Every calendar date from -4800-03-01 on is turned into a Julian day and back into itself. */
  lemma DateRoundTrip(date: YearMonthDay)
    requires InScope(date)
    ensures ToJulianDay(date) >= FIRST_JULIAN_DAY
    ensures GetYearMonthDay(ToJulianDay(date)) == date
  {
    var b, d, m, k := PositionOfDate(date);
    JulianDayOfPosition(b, d, m, k);
    DateOfPosition(b, d, m, k);
  }

  /** The position of the calendar successor is the position of the next day count. */
  lemma NextPosition(b: nat, d: nat, m: nat, k: nat) returns (b': nat, d': nat, m': nat, k': nat)
    requires IsPosition(b, d, m, k)
    ensures IsCalendarDate(DateAt(b, d, m, k))
    ensures m' <= 11 && d' <= 99 && DateAt(b', d', m', k') == NextDate(DateAt(b, d, m, k))
    ensures DayCount(b', d', m', k') == DayCount(b, d, m, k) + 1
  {
    hide MonthStart, YearStart, CenturyStart, IsLeapYear;
    PositionIsCalendarDate(b, d, m, k);
    PositionIsCalendarDate(b, d, m, k + 1);
    if IsPosition(b, d, m, k + 1) {
      b', d', m', k' := b, d, m, k + 1;
    } else if m < 11 {
      b', d', m', k' := b, d, m + 1, 0;
      MonthLength(m);
    } else {
      FebruaryEnds(b, d, k);
      b', d', m', k' := if d < 99 then b else b + 1, if d < 99 then d + 1 else 0, 0, 0;
    }
  }

  /** The calendar successor has day number one greater. */
  lemma SuccessorIsNextDay(date: YearMonthDay)
    requires InScope(date)
    ensures ToJulianDay(NextDate(date)) == ToJulianDay(date) + 1
  {
    var b, d, m, k := PositionOfDate(date);
    var b', d', m', k' := NextPosition(b, d, m, k);
    assert ToJulianDay(date) == DayCount(b, d, m, k) + FIRST_JULIAN_DAY by {
      JulianDayOfPosition(b, d, m, k);
    }
    assert ToJulianDay(DateAt(b', d', m', k')) == DayCount(b', d', m', k') + FIRST_JULIAN_DAY by {
      JulianDayOfPosition(b', d', m', k');
    }
  }

  /** The successor stays in scope, and one anchor day fixes the numbering. */
  lemma SuccessorInScope(date: YearMonthDay)
    requires InScope(date)
    ensures InScope(NextDate(date))
    ensures ToJulianDay(YearMonthDay(1970, 1, 1)) == 2440588
  {}

  /** After the last day of February the next day starts a new March-based year. */
  lemma FebruaryEnds(b: nat, d: nat, k: nat)
    requires d <= 99 && IsPosition(b, d, 11, k)
    requires !IsPosition(b, d, 11, k + 1)
    ensures d < 99 ==> DayCount(b, d, 11, k) + 1 == DayCount(b, d + 1, 0, 0)
    ensures d == 99 ==> DayCount(b, d, 11, k) + 1 == DayCount(b + 1, 0, 0, 0)
  {
    MonthLength(11);
    YearLength(d);
    CenturyLength(b);
    if d < 99 {
      assert YearStart(d + 1) <= YearStart(99);
    }
  }

  /** Below -32044 truncation breaks the split: the "day" comes out zero or negative. */
  lemma BeforeFirstDay(julianDayNumber: int)
    requires julianDayNumber < FIRST_JULIAN_DAY
    ensures GetYearMonthDay(julianDayNumber).day <= 0
  {
    var a := julianDayNumber + 32044;
    var b := Div(4 * a + 3, 146097);
    var c := a - Div(b * 146097, 4);
    assert c < 0;
    var d := Div(4 * c + 3, 1461);
    var e := c - Div(1461 * d, 4);
    assert e < 0;
  }

  lemma CalendarDateExactly(julianDayNumber: int)
    ensures IsCalendarDate(GetYearMonthDay(julianDayNumber)) <==> julianDayNumber >= FIRST_JULIAN_DAY
  {
    if julianDayNumber >= FIRST_JULIAN_DAY {
      DayRoundTrip(julianDayNumber);
    } else {
      BeforeFirstDay(julianDayNumber);
    }
  }

  // ---------- 32-bit evaluation ----------

  predicate FitsInt32(x: int) { -0x8000_0000 <= x <= 0x7fff_ffff }

  /** Every intermediate value of GetYearMonthDay is representable in a 32-bit int. */
  predicate EvaluatesInInt32(julianDayNumber: int) {
    var a := julianDayNumber + 32044;
    var b := Div(4 * a + 3, 146097);
    var c := a - Div(b * 146097, 4);
    var d := Div(4 * c + 3, 1461);
    var e := c - Div(1461 * d, 4);
    var m := Div(5 * e + 2, 153);
    && FitsInt32(a) && FitsInt32(4 * a + 3) && FitsInt32(b * 146097) && FitsInt32(4 * c + 3)
    && FitsInt32(1461 * d) && FitsInt32(5 * e + 2) && FitsInt32(153 * m + 2) && FitsInt32(b * 100 + d)
  }

  lemma Int32Range(julianDayNumber: int)
    requires julianDayNumber >= FIRST_JULIAN_DAY
    ensures EvaluatesInInt32(julianDayNumber) <==> julianDayNumber <= 536838867
  {
    var b, d, m, k := PositionOfDay(julianDayNumber - FIRST_JULIAN_DAY);
    var a := DayCount(b, d, m, k);
    CenturyOf(a, b);
    YearOf(a - CenturyStart(b), d);
    MonthOf(a - CenturyStart(b) - YearStart(d), m);
  }

  // ---------- week days ----------

  /** C++ remainder: takes the sign of the dividend. */
  function Mod(x: int, y: int): int
    requires y > 0
  {
    x - y * Div(x, y)
  }

  /** 0 is Sunday. */
  function WeekDay(julianDayNumber: int): int { Mod(julianDayNumber + 1, 7) }

  lemma WeekDaysCycle(julianDayNumber: int)
    ensures 0 <= WeekDay(julianDayNumber) <= 6 <==> (julianDayNumber >= -1 || (julianDayNumber + 1) % 7 == 0)
    ensures julianDayNumber >= -1 ==> WeekDay(julianDayNumber + 1) == (WeekDay(julianDayNumber) + 1) % 7
    ensures WeekDay(ToJulianDay(YearMonthDay(1900, 1, 1))) == 1
  {
    hide ToJulianDay;
    WeekDayIs(julianDayNumber);
    WeekDayIs(julianDayNumber + 1);
    FirstDayOf1900();
  }

  lemma WeekDayIs(julianDayNumber: int)
    ensures var d := julianDayNumber + 1; WeekDay(julianDayNumber) == if d >= 0 then d % 7 else -((-d) % 7)
  {}

  lemma FirstDayOf1900()
    ensures ToJulianDay(YearMonthDay(1900, 1, 1)) == 2415021
  {}
}
