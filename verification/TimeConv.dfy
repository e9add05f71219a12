/** time_to_tm (compat/compat-2.6.32.c:120-214) against the proleptic Gregorian calendar.

    Integers are unbounded, as the 64-bit long of the code never wraps on a 64-bit time_t. */
module TimeConv {
  const SECS_PER_HOUR := 3600
  const SECS_PER_DAY := 86400

  // ---------------------------------------------------------------- division in C

  /** The quotient of C, which truncates toward zero. */
  function Quot(a: int, b: int): int
    requires b > 0
  {
    if a >= 0 then a / b else -((-a) / b)
  }

  function Rem(a: int, b: int): int
    requires b > 0
  {
    a - b * Quot(a, b)
  }

  /** math_div. */
  function MathDiv(a: int, b: int): int
    requires b > 0
  {
    Quot(a, b) - (if Rem(a, b) < 0 then 1 else 0)
  }

  /** math_div is the floor of the quotient. */
  lemma MathDivFloors(a: int, b: int)
    requires b > 0
    ensures b * MathDiv(a, b) <= a < b * MathDiv(a, b) + b
  {
    if a < 0 {
      var q := (-a) / b;
      assert -a == b * q + (-a) % b;
      assert b * (-q) == -(b * q);
      assert b * (-q - 1) == -(b * q) - b;
    } else {
      assert a == b * (a / b) + a % b;
    }
  }

  // ---------------------------------------------------------------- the calendar

  /** __isleap. */
  predicate IsLeap(year: int) {
    Rem(year, 4) == 0 && (Rem(year, 100) != 0 || Rem(year, 400) == 0)
  }

  function YearLen(y: int): int { if IsLeap(y) then 366 else 365 }

  /** Leap years up to and including y, up to a constant. */
  function LeapsUpTo(y: int): int {
    MathDiv(y, 4) - MathDiv(y, 100) + MathDiv(y, 400)
  }

  /** leaps_between. */
  function LeapsBetween(y1: int, y2: int): int { LeapsUpTo(y2 - 1) - LeapsUpTo(y1 - 1) }

  /** Days before year y, up to a constant. */
  function DaysBefore(y: int): int { 365 * y + LeapsUpTo(y - 1) }

  /** Dafny's division by a positive number is the floor as well. */
  lemma MathDivIs(a: int, b: int)
    requires b > 0
    ensures MathDiv(a, b) == a / b
    ensures Rem(a, b) == 0 <==> a % b == 0
  {
    MathDivFloors(a, b);
    FloorUnique(a, b, MathDiv(a, b), a / b) by { assert a == b * (a / b) + a % b; }
    RemZero(a, b);
    assert a == b * (a / b) + a % b;
  }

  lemma FloorUnique(a: int, b: int, q: int, r: int)
    requires b > 0 && b * q <= a < b * q + b && b * r <= a < b * r + b
    ensures q == r
  {
    var d := q - r;
    assert b * d == b * q - b * r;
    assert -b < b * d < b;
    SmallFactor(b, d);
  }

  lemma SmallFactor(b: int, d: int)
    requires b > 0 && -b < b * d < b
    ensures d == 0
  {}

  /** The remainder of C is zero exactly for multiples. */
  lemma RemZero(y: int, b: int)
    requires b > 0
    ensures Rem(y, b) == 0 <==> b * MathDiv(y, b) == y
  {
    MathDivFloors(y, b);
  }

  /** Leap years in the terms of the calendar rule. */
  lemma LeapRule(y: int)
    ensures IsLeap(y) <==> y % 4 == 0 && (y % 100 != 0 || y % 400 == 0)
  {
    hide MathDiv, Rem;
    MathDivIs(y, 4);
    MathDivIs(y, 100);
    MathDivIs(y, 400);
  }

  lemma LeapsIs(y: int)
    ensures LeapsUpTo(y) == y / 4 - y / 100 + y / 400
  {
    hide MathDiv, Rem;
    MathDivIs(y, 4);
    MathDivIs(y, 100);
    MathDivIs(y, 400);
  }

  /** A year has 365 days, 366 if it is a leap year: the closed form counts calendar days. */
  lemma YearsAddUp(y: int)
    ensures DaysBefore(y + 1) == DaysBefore(y) + YearLen(y)
  {
    hide LeapsUpTo, IsLeap;
    LeapRule(y);
    LeapsIs(y);
    LeapsIs(y - 1);
    HundredFour(y);
  }

  lemma HundredFour(y: int)
    ensures y / 4 - y / 100 + y / 400 - ((y - 1) / 4 - (y - 1) / 100 + (y - 1) / 400)
         == if y % 4 == 0 && (y % 100 != 0 || y % 400 == 0) then 1 else 0
  {
    Carry(y, 4);
    Carry(y, 100);
    Carry(y, 400);
    if y % 400 == 0 { Divides(y, 100, 4, y / 400); }
    if y % 100 == 0 { Divides(y, 4, 25, y / 100); }
  }

  lemma Divides(y: int, b: int, c: int, q: int)
    requires b > 0 && y == b * c * q
    ensures y % b == 0
  {
    var k := c * q;
    assert y == b * k;
    MultipleHasNoRest(b, k);
  }

  lemma MultipleHasNoRest(b: int, k: int)
    requires b > 0
    ensures b * k % b == 0
  {
    FloorUnique(b * k, b, k, b * k / b);
  }

  lemma Carry(y: int, b: int)
    requires b == 4 || b == 100 || b == 400
    ensures y / b - (y - 1) / b == if y % b == 0 then 1 else 0
  {}

  // ---------------------------------------------------------------- the year of a day

  lemma {:induction false} YearSpan(a: int, b: int)
    requires a <= b
    ensures 365 * (b - a) <= DaysBefore(b) - DaysBefore(a) <= 366 * (b - a)
    decreases b - a
  {
    hide DaysBefore, IsLeap;
    if a < b {
      YearSpan(a, b - 1);
      YearsAddUp(b - 1);
    }
  }

  /** Day number d (counted like DaysBefore) falls into year y. */
  predicate InYear(d: int, y: int) { DaysBefore(y) <= d < DaysBefore(y + 1) }

  lemma YearUnique(d: int, y: int, z: int)
    requires InYear(d, y) && InYear(d, z)
    ensures y == z
  {
    hide DaysBefore;
    if y < z { YearSpan(y + 1, z); }
    if z < y { YearSpan(z + 1, y); }
  }

  ghost function YearUp(d: int, lo: int): (y: int)
    requires DaysBefore(lo) <= d
    ensures InYear(d, y)
    decreases d - DaysBefore(lo)
  {
    YearsAddUp(lo);
    hide DaysBefore, IsLeap;
    if d < DaysBefore(lo + 1) then lo else YearUp(d, lo + 1)
  }

  ghost function YearOf(d: int): (y: int)
    ensures InYear(d, y)
  {
    LowStart(d);
    hide DaysBefore;
    YearUp(d, if d >= 0 then 0 else d)
  }

  lemma LowStart(d: int)
    ensures DaysBefore(if d >= 0 then 0 else d) <= d
  {
    hide DaysBefore;
    YearZero();
    if d < 0 { YearSpan(d, 0); }
  }

  lemma YearZero()
    ensures DaysBefore(0) == -1
  {
    hide LeapsUpTo;
    LeapsIs(-1);
  }

  // ---------------------------------------------------------------- the guess

  /** The next guess of the loop, from year y with d - DaysBefore(y) days left over. */
  function Guess(d: int, y: int): int { y + MathDiv(d - DaysBefore(y), 365) }

  ghost function Distance(d: int, y: int): nat {
    if y >= YearOf(d) then y - YearOf(d) else YearOf(d) - y
  }

  /** 1 when the next guess is as far off as this one. */
  ghost function Bounce(d: int, y: int): nat {
    if Distance(d, Guess(d, y)) == Distance(d, y) then 1 else 0
  }

  lemma FloorBetween(days: int, q: int)
    ensures days >= 365 * q ==> MathDiv(days, 365) >= q
    ensures days < 365 * (q + 1) ==> MathDiv(days, 365) <= q
  {
    MathDivFloors(days, 365);
  }

  /** From a year too early the guess is not too early, and too late by at most 1 + e/365. */
  lemma FromBelow(d: int, y: int)
    requires y < YearOf(d)
    ensures var e := YearOf(d) - y; 0 <= Guess(d, y) - YearOf(d) <= 1 + e / 365
  {
    hide DaysBefore, MathDiv, YearOf;
    var Y := YearOf(d);
    var e := Y - y;
    YearSpan(y, Y);
    YearSpan(y, Y + 1);
    FloorBetween(d - DaysBefore(y), e);
    FloorBetween(d - DaysBefore(y), e + 1 + e / 365);
  }

  /** From a year too late the guess is not too late, and too early by at most 1 + (e-1)/365. */
  lemma FromAbove(d: int, y: int)
    requires y > YearOf(d)
    ensures var e := y - YearOf(d); -(1 + (e - 1) / 365) <= Guess(d, y) - YearOf(d) <= 0
  {
    hide DaysBefore, MathDiv, YearOf;
    var Y := YearOf(d);
    var e := y - Y;
    YearSpan(Y, y);
    YearSpan(Y + 1, y);
    FloorBetween(d - DaysBefore(y), -e - 1 - (e - 1) / 365);
    FloorBetween(d - DaysBefore(y), -e);
  }

  /** One year too late after an overshoot: the next guess is right. */
  lemma AfterOvershoot(d: int, y: int)
    requires y == YearOf(d) - 1 && Guess(d, y) == YearOf(d) + 1
    ensures Guess(d, YearOf(d) + 1) == YearOf(d)
  {
    hide DaysBefore, MathDiv, YearOf, IsLeap;
    var Y := YearOf(d);
    YearsAddUp(Y - 1);
    YearsAddUp(Y);
    FloorBetween(d - DaysBefore(y), 1);
    assert d - DaysBefore(y) >= 730;
    FloorBetween(d - DaysBefore(Y + 1), -1);
  }

  /** One year too early after an undershoot: the next guess is right. */
  lemma AfterUndershoot(d: int, y: int)
    requires y == YearOf(d) + 1 && Guess(d, y) == YearOf(d) - 1
    ensures Guess(d, YearOf(d) - 1) == YearOf(d)
  {
    hide DaysBefore, MathDiv, YearOf, IsLeap;
    var Y := YearOf(d);
    YearsAddUp(Y - 1);
    YearsAddUp(Y);
    FloorBetween(d - DaysBefore(y), -1);
    assert d - DaysBefore(y) < -365;
    FloorBetween(d - DaysBefore(Y - 1), 1);
  }

  /** The loop comes to an end although a guess can swing past the year in either direction:
      the distance shrinks, except for one swing between the two neighbours of the year. */
  lemma GuessConverges(d: int, y: int)
    requires y != YearOf(d)
    ensures Distance(d, Guess(d, y)) < Distance(d, y) ||
            (Distance(d, Guess(d, y)) == Distance(d, y) && Bounce(d, y) == 1 && Bounce(d, Guess(d, y)) == 0)
  {
    hide Guess, YearOf;
    var Y := YearOf(d);
    if y < Y {
      FromBelow(d, y);
      if y == Y - 1 && Guess(d, y) == Y + 1 { AfterOvershoot(d, y); }
    } else {
      FromAbove(d, y);
      if y == Y + 1 && Guess(d, y) == Y - 1 { AfterUndershoot(d, y); }
    }
  }

  // ---------------------------------------------------------------- broken-down time

  /** struct tm: month from 0, year from 1900. */
  datatype Tm = Tm(sec: int, min: int, hour: int, mday: int, mon: int, year: int, wday: int, yday: int)

  function MonthLen(y: int, mon: int): int
    requires 0 <= mon < 12
  {
    [31, if IsLeap(y) then 29 else 28, 31, 30, 31, 30, 31, 31, 30, 31, 30, 31][mon]
  }

  /** Days of year y before month mon. */
  function DaysToMonth(y: int, mon: int): int
    requires 0 <= mon <= 12
  {
    if mon == 0 then 0 else DaysToMonth(y, mon - 1) + MonthLen(y, mon - 1)
  }

  /** __mon_yday. */
  const MON_YDAY: seq<seq<int>> := [
    [0, 31, 59, 90, 120, 151, 181, 212, 243, 273, 304, 334, 365],
    [0, 31, 60, 91, 121, 152, 182, 213, 244, 274, 305, 335, 366]]

  function Table(y: int): seq<int> { if IsLeap(y) then MON_YDAY[1] else MON_YDAY[0] }

  /** The table holds the sums of the month lengths. */
  lemma {:induction false} TableIsSums(y: int, mon: int)
    requires 0 <= mon <= 12
    ensures Table(y)[mon] == DaysToMonth(y, mon)
  {
    hide IsLeap;
    if mon > 0 { TableIsSums(y, mon - 1); }
  }

  /** The day of a date, with 1970-01-01 as day 0. */
  function EpochDay(y: int, mon: int, mday: int): int
    requires 0 <= mon < 12
  {
    DaysBefore(y) - DaysBefore(1970) + DaysToMonth(y, mon) + mday - 1
  }

  /** A calendar date and time of day, with matching day of the year and of the week. */
  predicate ValidTm(t: Tm) {
    && 0 <= t.sec < 60 && 0 <= t.min < 60 && 0 <= t.hour < 24
    && 0 <= t.mon < 12 && 1 <= t.mday <= MonthLen(t.year + 1900, t.mon)
    && t.yday == DaysToMonth(t.year + 1900, t.mon) + t.mday - 1
    && t.wday == (4 + EpochDay(t.year + 1900, t.mon, t.mday)) % 7
  }

  /** Seconds since 1970-01-01 00:00:00. */
  function Seconds(t: Tm): int
    requires 0 <= t.mon < 12
  {
    EpochDay(t.year + 1900, t.mon, t.mday) * SECS_PER_DAY + t.hour * SECS_PER_HOUR + t.min * 60 + t.sec
  }

  /** Bring the seconds of the day into range, moving whole days. */
  method Normalise(totalsecs: int, offset: int) returns (days: int, rem: int)
    ensures 0 <= rem < SECS_PER_DAY && days * SECS_PER_DAY + rem == totalsecs + offset
  {
    days := Quot(totalsecs, SECS_PER_DAY);
    rem := Rem(totalsecs, SECS_PER_DAY);
    rem := rem + offset;
    while rem < 0
      invariant days * SECS_PER_DAY + rem == totalsecs + offset
      decreases -rem
    {
      rem := rem + SECS_PER_DAY;
      days := days - 1;
    }
    while rem >= SECS_PER_DAY
      invariant days * SECS_PER_DAY + rem == totalsecs + offset && rem >= 0
    {
      rem := rem - SECS_PER_DAY;
      days := days + 1;
    }
  }

  /** The year of a day counted from 1970-01-01, and the day of that year. */
  method FindYear(epochDay: int) returns (y: int, days: int)
    ensures 0 <= days < YearLen(y)
    ensures DaysBefore(y) + days == DaysBefore(1970) + epochDay
  {
    hide DaysBefore, IsLeap, Distance, Bounce, MathDiv, LeapsBetween;
    y, days := 1970, epochDay;
    ghost var d := DaysBefore(1970) + epochDay;
    while days < 0 || days >= YearLen(y)
      invariant DaysBefore(y) + days == d
      decreases Distance(d, y), Bounce(d, y)
    {
      NotThere(d, y);
      GuessConverges(d, y);
      var yg := y + MathDiv(days, 365);
      SameDay(y, yg);
      days := days - ((yg - y) * 365 + LeapsBetween(y, yg));
      y := yg;
    }
  }

  lemma NotThere(d: int, y: int)
    requires d - DaysBefore(y) < 0 || d - DaysBefore(y) >= YearLen(y)
    ensures y != YearOf(d)
  {
    YearsAddUp(y);
  }

  lemma SameDay(y: int, yg: int)
    ensures DaysBefore(yg) - DaysBefore(y) == (yg - y) * 365 + LeapsBetween(y, yg)
  {}

  /** The month of a day of the year, and the day of that month from 0. */
  method FindMonth(y: int, yday: int) returns (mon: int, days: int)
    requires 0 <= yday < YearLen(y)
    ensures 0 <= mon < 12 && 0 <= days < MonthLen(y, mon) && yday == DaysToMonth(y, mon) + days
  {
    var ip := Table(y);
    mon := 11;
    while yday < ip[mon]
      invariant 0 <= mon <= 11 && yday < ip[mon + 1]
    {
      mon := mon - 1;
    }
    days := yday - ip[mon];
    TableIsSums(y, mon);
    TableIsSums(y, mon + 1);
  }

  /** time_to_tm: for every instant and offset it ends, and its fields are a valid date and
      time that denote exactly that instant. */
  method TimeToTm(totalsecs: int, offset: int) returns (t: Tm)
    ensures ValidTm(t) && Seconds(t) == totalsecs + offset
  {
    hide DaysBefore, MonthLen, DaysToMonth;
    var days, rem := Normalise(totalsecs, offset);
    var hour := Quot(rem, SECS_PER_HOUR);
    rem := Rem(rem, SECS_PER_HOUR);
    var min := Quot(rem, 60);
    var sec := Rem(rem, 60);
    var wday := Rem(4 + days, 7);
    if wday < 0 { wday := wday + 7; }
    var y, yday := FindYear(days);
    var mon, mday := FindMonth(y, yday);
    t := Tm(sec, min, hour, mday + 1, mon, y - 1900, wday, yday);
  }

  // ---------------------------------------------------------------- uniqueness

  lemma {:induction false} MonthsMono(y: int, a: int, b: int)
    requires 0 <= a <= b <= 12
    ensures DaysToMonth(y, a) <= DaysToMonth(y, b)
    decreases b
  {
    hide IsLeap;
    if a < b { MonthsMono(y, a, b - 1); }
  }

  lemma MonthUnique(y: int, a: int, x: int, b: int, z: int)
    requires 0 <= a < 12 && 0 <= b < 12 && 1 <= x <= MonthLen(y, a) && 1 <= z <= MonthLen(y, b)
    requires DaysToMonth(y, a) + x == DaysToMonth(y, b) + z
    ensures a == b && x == z
  {
    hide MonthLen;
    if a < b { MonthsMono(y, a + 1, b); }
    if b < a { MonthsMono(y, b + 1, a); }
  }

  /** A date lies in its year. */
  lemma DateInYear(y: int, mon: int, mday: int)
    requires 0 <= mon < 12 && 1 <= mday <= MonthLen(y, mon)
    ensures InYear(DaysBefore(1970) + EpochDay(y, mon, mday), y)
  {
    hide DaysBefore, MonthLen;
    MonthsMono(y, 0, mon);
    MonthsMono(y, mon + 1, 12);
    TableIsSums(y, 12);
    YearsAddUp(y);
  }

  /** Zero seconds are the first instant of 1970, a Thursday. */
  lemma Epoch()
    ensures var t := Tm(0, 0, 0, 1, 0, 70, 4, 0); ValidTm(t) && Seconds(t) == 0
  {
    hide DaysBefore, MonthLen, DaysToMonth, EpochDay;
    FirstOfJanuary();
  }

  lemma FirstOfJanuary()
    ensures EpochDay(1970, 0, 1) == 0 == DaysToMonth(1970, 0) && MonthLen(1970, 0) == 31
  {
    hide DaysBefore, IsLeap;
  }

  /** The fields are determined by the instant: time_to_tm inverts Seconds on valid times. */
  lemma FieldsAreDetermined(a: Tm, b: Tm)
    requires ValidTm(a) && ValidTm(b) && Seconds(a) == Seconds(b)
    ensures a == b
  {
    hide DaysBefore, DaysToMonth, MonthLen;
    var d := EpochDay(a.year + 1900, a.mon, a.mday);
    var e := EpochDay(b.year + 1900, b.mon, b.mday);
    assert d == e;
    DateInYear(a.year + 1900, a.mon, a.mday);
    DateInYear(b.year + 1900, b.mon, b.mday);
    YearUnique(DaysBefore(1970) + d, a.year + 1900, b.year + 1900);
    MonthUnique(a.year + 1900, a.mon, a.mday, b.mon, b.mday);
  }
}
