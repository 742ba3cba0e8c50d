/** Civil dates from seconds and back (`src/stdlib/mod.rs`, `src/stdlib/strftime.rs`): the proleptic
    Gregorian calendar. */
module Calendar {
  // ---- the calendar ----------------------------------------------------------------------------

  predicate IsLeap(y: int) { (y % 4 == 0 && y % 100 != 0) || y % 400 == 0 }

  function DaysIn(y: int, month: int): int {
    if month == 2 then (if IsLeap(y) then 29 else 28)
    else if month == 4 || month == 6 || month == 9 || month == 11 then 30
    else 31
  }

  /** A civil date; months and days count from 1. */
  datatype Date = Date(year: int, month: int, day: int)

  predicate Valid(d: Date) { 1 <= d.month <= 12 && 1 <= d.day <= DaysIn(d.year, d.month) }

  /** The next day: what makes a sequence of dates a calendar. */
  function Next(d: Date): Date {
    if d.day < DaysIn(d.year, d.month) then Date(d.year, d.month, d.day + 1)
    else if d.month < 12 then Date(d.year, d.month + 1, 1)
    else Date(d.year + 1, 1, 1)
  }

  // ---- years that start in March ---------------------------------------------------------------

  /** Days of a 400-year era before its year `yoe` (years starting in March, leap day last). */
  function YearStart(yoe: int): int { 365 * yoe + yoe / 4 - yoe / 100 }

  /** Day `doy` is a day of year `yoe` of an era: the leap day is the last, when there is one. */
  predicate InYear(yoe: int, doy: int) {
    0 <= yoe < 400 && 0 <= doy <= (if IsLeap(yoe + 1) then 365 else 364)
  }

  /** The year of an era a day falls in, by the source's formula. */
  function YearOfEra(doe: int): int { (doe - doe / 1460 + doe / 36524 - doe / 146096) / 365 }

  /** The formula finds the year. */
  lemma YearFound(yoe: int, doy: int)
    requires InYear(yoe, doy)
    ensures YearOfEra(YearStart(yoe) + doy) == yoe
    ensures 0 <= YearStart(yoe) + doy < 146097
  {
    var c, y := yoe / 100, yoe % 100;
    var q, r := y / 4, y % 4;
    assert yoe == 100 * c + 4 * q + r && 0 <= c < 4 && 0 <= q < 25 && 0 <= r < 4;
    assert yoe / 4 == 25 * c + q;
    var doe := YearStart(yoe) + doy;
    assert doe == 36524 * c + 1461 * q + 365 * r + doy;
    LeapYears(c, q, r, yoe);
    Quotients(c, q, r, doy, doe);
  }

  /** The last year of an era, and every fourth year but the last of the other centuries, end with a
      leap day. */
  lemma LeapYears(c: int, q: int, r: int, yoe: int)
    requires 0 <= c < 4 && 0 <= q < 25 && 0 <= r < 4 && yoe == 100 * c + 4 * q + r
    ensures IsLeap(yoe + 1) <==> r == 3 && (q < 24 || c == 3)
  {
    assert (yoe + 1) % 4 == (r + 1) % 4;
    if r == 3 {
      assert yoe + 1 == 100 * c + 4 * (q + 1);
      if q < 24 {
        assert (yoe + 1) % 100 == 4 * (q + 1);
      } else {
        assert yoe + 1 == 100 * (c + 1);
      }
    }
  }

  lemma Quotients(c: int, q: int, r: int, doy: int, doe: int)
    requires 0 <= c < 4 && 0 <= q < 25 && 0 <= r < 4 && 0 <= doy <= 365
    requires doy == 365 ==> r == 3 && (q < 24 || c == 3)
    requires doe == 36524 * c + 1461 * q + 365 * r + doy
    ensures YearOfEra(doe) == 100 * c + 4 * q + r && 0 <= doe < 146097
  {
    var last := doe == 146096;
    var low := 24 * c + q + 365 * r + doy;
    assert doe == 1460 * (25 * c + q) + low;
    var e := if low >= 1460 then 1 else 0;
    assert doe / 1460 == 25 * c + q + e;
    assert doe / 36524 == if last then 4 else c;
    assert doe / 146096 == if last then 1 else 0;
    assert doe - doe / 1460 + doe / 36524 - doe / 146096 == 365 * (100 * c + 4 * q + r) + (doy - e);
  }

  /** Every day of an era is a day of one of its years. */
  lemma {:induction false} YearExists(doe: int, yoe: int) returns (y: int)
    requires 0 <= doe < 146097 && 0 <= yoe < 400 && YearStart(yoe) <= doe
    ensures InYear(y, doe - YearStart(y))
    decreases 400 - yoe
  {
    YearLength(yoe);
    if InYear(yoe, doe - YearStart(yoe)) {
      y := yoe;
    } else {
      y := YearExists(doe, yoe + 1);
    }
  }

  lemma YearLength(yoe: int)
    requires 0 <= yoe < 400
    ensures yoe < 399 ==> YearStart(yoe + 1) == YearStart(yoe) + (if IsLeap(yoe + 1) then 366 else 365)
    ensures yoe == 399 ==> YearStart(yoe) + 366 == 146097 && IsLeap(400)
  {
    var c, y := yoe / 100, yoe % 100;
    var q, r := y / 4, y % 4;
    assert yoe == 100 * c + 4 * q + r && 0 <= c < 4 && 0 <= q < 25 && 0 <= r < 4;
    LeapYears(c, q, r, yoe);
    assert yoe / 4 == 25 * c + q;
    if r < 3 {
      assert (yoe + 1) / 4 == 25 * c + q && (yoe + 1) / 100 == c;
    } else if q < 24 {
      assert (yoe + 1) / 4 == 25 * c + q + 1 && (yoe + 1) / 100 == c;
    } else {
      assert (yoe + 1) / 4 == 25 * c + 25 && (yoe + 1) / 100 == c + 1;
    }
  }

  // ---- dates and day numbers -------------------------------------------------------------------

  const EPOCH_SHIFT: int := 719468
  const ERA_DAYS: int := 146097

  /** The first day of month `mp` (0 is March) in its year. */
  function MonthStart(mp: int): int { (153 * mp + 2) / 5 }

  /** The date of day number `days` (0 is 1970-01-01). */
  function CivilFromDays(days: int): Date {
    var z := days + EPOCH_SHIFT;
    var era, doe := z / ERA_DAYS, z % ERA_DAYS;
    var yoe := YearOfEra(doe);
    var doy := doe - YearStart(yoe);
    var mp := (5 * doy + 2) / 153;
    var month := if mp < 10 then mp + 3 else mp - 9;
    Date(yoe + era * 400 + (if month <= 2 then 1 else 0), month, doy - MonthStart(mp) + 1)
  }

  /** The day number of a date. */
  function DaysFromCivil(d: Date): int {
    var y := if d.month <= 2 then d.year - 1 else d.year;
    var era, yoe := y / 400, y % 400;
    var mp := (d.month + 9) % 12;
    var doy := MonthStart(mp) + (d.day - 1);
    era * ERA_DAYS + (YearStart(yoe) + doy) - EPOCH_SHIFT
  }

  /** Month and day of a day of the year. */
  lemma MonthFound(mp: int, day: int)
    requires 0 <= mp < 12 && 1 <= day <= (if mp == 11 then 29 else MonthStart(mp + 1) - MonthStart(mp))
    ensures (5 * (MonthStart(mp) + day - 1) + 2) / 153 == mp
  {
    if mp < 4 { MonthFoundEarly(mp, day); }
  }

  lemma MonthFoundEarly(mp: int, day: int)
    requires 0 <= mp < 4 && 1 <= day <= MonthStart(mp + 1) - MonthStart(mp)
    ensures (5 * (MonthStart(mp) + day - 1) + 2) / 153 == mp
  {
  }

  /** Every day of a year is a day of one of its months. */
  lemma MonthExists(doy: int)
    requires 0 <= doy <= 365
    ensures var mp := (5 * doy + 2) / 153;
      && 0 <= mp < 12 && MonthStart(mp) <= doy
      && (mp < 11 ==> doy < MonthStart(mp + 1)) && (mp == 11 ==> doy - MonthStart(11) <= 28)
  {
    var mp := (5 * doy + 2) / 153;
    assert 153 * mp <= 5 * doy + 2 < 153 * (mp + 1);
  }

  /** The lengths of the months, as the formula has them. */
  lemma MonthLengths(y: int, mp: int)
    requires 0 <= mp < 12
    ensures var month := if mp < 10 then mp + 3 else mp - 9;
      mp < 11 ==> MonthStart(mp + 1) - MonthStart(mp) == DaysIn(y, month)
    ensures MonthStart(0) == 0 && MonthStart(11) == 337
  {
  }

  /** A date as an era, a year of it and a day of that year. */
  lemma Parts(d: Date) returns (era: int, yoe: int, mp: int)
    requires Valid(d)
    ensures d.year == yoe + era * 400 + (if d.month <= 2 then 1 else 0) && d.month == (if mp < 10 then mp + 3 else mp - 9)
    ensures 0 <= mp < 12 && InYear(yoe, MonthStart(mp) + d.day - 1)
    ensures 1 <= d.day <= (if mp == 11 then 29 else MonthStart(mp + 1) - MonthStart(mp))
    ensures DaysFromCivil(d) == era * ERA_DAYS + YearStart(yoe) + (MonthStart(mp) + d.day - 1) - EPOCH_SHIFT
  {
    var y := if d.month <= 2 then d.year - 1 else d.year;
    era, yoe := y / 400, y % 400;
    mp := if d.month <= 2 then d.month + 9 else d.month - 3;
    assert (d.month + 9) % 12 == mp;
    MonthLengths(d.year, mp);
    MonthStarts();
    if d.month == 2 { LeapOfEra(yoe, era); }
  }

  lemma MonthStarts()
    ensures MonthStart(0) == 0 && MonthStart(1) == 31 && MonthStart(2) == 61 && MonthStart(3) == 92
    ensures MonthStart(4) == 122 && MonthStart(5) == 153 && MonthStart(6) == 184 && MonthStart(7) == 214
    ensures MonthStart(8) == 245 && MonthStart(9) == 275 && MonthStart(10) == 306 && MonthStart(11) == 337
  {
  }

  /** Eras do not change which years are leap years. */
  lemma LeapOfEra(yoe: int, era: int)
    ensures IsLeap(yoe + era * 400 + 1) <==> IsLeap(yoe + 1)
  {
    Shift400(yoe + 1, era);
    Shift100(yoe + 1, 4 * era);
    Shift4(yoe + 1, 100 * era);
  }

  lemma Shift400(y: int, k: int)
    ensures (y + 400 * k) % 400 == y % 400
  {
  }

  lemma Shift100(y: int, k: int)
    ensures (y + 100 * k) % 100 == y % 100
  {
  }

  lemma Shift4(y: int, k: int)
    ensures (y + 4 * k) % 4 == y % 4
  {
  }

  /** The date of day `doy` of year `yoe` of an era. */
  function DateOf(era: int, yoe: int, doy: int): Date {
    var mp := (5 * doy + 2) / 153;
    var month := if mp < 10 then mp + 3 else mp - 9;
    Date(yoe + era * 400 + (if month <= 2 then 1 else 0), month, doy - MonthStart(mp) + 1)
  }

  /** The number of that day. */
  function NumberOf(era: int, yoe: int, doy: int): int { era * ERA_DAYS + (YearStart(yoe) + doy) - EPOCH_SHIFT }

  lemma CivilOf(days: int, era: int, doe: int, yoe: int, doy: int)
    requires (days + EPOCH_SHIFT) / ERA_DAYS == era && (days + EPOCH_SHIFT) % ERA_DAYS == doe
    requires YearOfEra(doe) == yoe && doy == doe - YearStart(yoe)
    ensures CivilFromDays(days) == DateOf(era, yoe, doy)
  {
  }

  lemma CivilIsDateOf(era: int, yoe: int, doy: int)
    requires InYear(yoe, doy)
    ensures CivilFromDays(NumberOf(era, yoe, doy)) == DateOf(era, yoe, doy)
  {
    var doe := YearStart(yoe) + doy;
    YearFound(yoe, doy);
    EraFound(era, doe);
    CivilOf(NumberOf(era, yoe, doy), era, doe, yoe, doy);
  }

  lemma EraFound(era: int, doe: int)
    requires 0 <= doe < ERA_DAYS
    ensures (era * ERA_DAYS + doe) / ERA_DAYS == era && (era * ERA_DAYS + doe) % ERA_DAYS == doe
  {
  }

  lemma DateOfIsValid(era: int, yoe: int, doy: int)
    requires InYear(yoe, doy)
    ensures Valid(DateOf(era, yoe, doy)) && DaysFromCivil(DateOf(era, yoe, doy)) == NumberOf(era, yoe, doy)
  {
    var mp := (5 * doy + 2) / 153;
    var d := DateOf(era, yoe, doy);
    MonthExists(doy);
    MonthLengths(d.year, mp);
    MonthStarts();
    LeapOfEra(yoe, era);
    YearOfEras(era, yoe);
    assert (d.month + 9) % 12 == mp;
  }

  lemma DateOfParts(era: int, yoe: int, mp: int, day: int)
    requires 0 <= mp < 12 && 1 <= day <= (if mp == 11 then 29 else MonthStart(mp + 1) - MonthStart(mp))
    ensures var month := if mp < 10 then mp + 3 else mp - 9;
      DateOf(era, yoe, MonthStart(mp) + day - 1) == Date(yoe + era * 400 + (if month <= 2 then 1 else 0), month, day)
  {
    MonthFound(mp, day);
  }

  /** A date's day number is converted back to it. */
  lemma CivilFromDaysInverse(d: Date)
    requires Valid(d)
    ensures CivilFromDays(DaysFromCivil(d)) == d
  {
    var era, yoe, mp := Parts(d);
    var doy := MonthStart(mp) + d.day - 1;
    assert DaysFromCivil(d) == NumberOf(era, yoe, doy);
    CivilIsDateOf(era, yoe, doy);
    DateOfParts(era, yoe, mp, d.day);
  }

  /** Every day number is that of a valid date, whose day number it is. */
  lemma DaysFromCivilInverse(days: int)
    ensures Valid(CivilFromDays(days)) && DaysFromCivil(CivilFromDays(days)) == days
  {
    var z := days + EPOCH_SHIFT;
    var yoe := YearExists(z % ERA_DAYS, 0);
    var doy := z % ERA_DAYS - YearStart(yoe);
    assert days == NumberOf(z / ERA_DAYS, yoe, doy);
    CivilIsDateOf(z / ERA_DAYS, yoe, doy);
    DateOfIsValid(z / ERA_DAYS, yoe, doy);
  }

  lemma YearOfEras(era: int, yoe: int)
    requires 0 <= yoe < 400
    ensures (yoe + era * 400) / 400 == era && (yoe + era * 400) % 400 == yoe
  {
  }

  /** The last day of February ends a year that starts in March. */
  predicate EndsMarchYear(d: Date) { d.month == 2 && d.day == DaysIn(d.year, 2) }

  lemma NextInYear(d: Date)
    requires Valid(d) && !EndsMarchYear(d)
    ensures DaysFromCivil(Next(d)) == DaysFromCivil(d) + 1
  {
    var era, yoe, mp := Parts(d);
    var era', yoe', mp' := Parts(Next(d));
    MonthLengths(d.year, mp);
    MonthStarts();
    SameYear(era, yoe, era', yoe');
  }

  lemma NextIsMarch(d: Date)
    requires Valid(d) && EndsMarchYear(d)
    ensures DaysFromCivil(Next(d)) == DaysFromCivil(d) + 1
  {
    var era, yoe, mp := Parts(d);
    var era', yoe', mp' := Parts(Next(d));
    MonthStarts();
    MarchesFollow(era, yoe, era', yoe', d.year);
  }

  /** Day numbers count days: the next date has the next number. */
  lemma NextDay(d: Date)
    requires Valid(d)
    ensures Valid(Next(d)) && DaysFromCivil(Next(d)) == DaysFromCivil(d) + 1
  {
    if EndsMarchYear(d) { NextIsMarch(d); } else { NextInYear(d); }
  }

  lemma SameYear(era: int, yoe: int, era': int, yoe': int)
    requires 0 <= yoe < 400 && 0 <= yoe' < 400 && yoe + era * 400 == yoe' + era' * 400
    ensures era == era' && yoe == yoe'
  {
    YearOfEras(era, yoe);
    YearOfEras(era', yoe');
  }

  lemma YearsFollow(era: int, yoe: int, era': int, yoe': int)
    requires 0 <= yoe < 400 && 0 <= yoe' < 400 && yoe' + era' * 400 == yoe + era * 400 + 1
    ensures if yoe < 399 then era' == era && yoe' == yoe + 1 else era' == era + 1 && yoe' == 0
  {
    if yoe < 399 {
      SameYear(era, yoe + 1, era', yoe');
    } else {
      SameYear(era + 1, 0, era', yoe');
    }
  }

  lemma EpochIsDayZero()
    ensures Valid(Date(1970, 1, 1)) && DaysFromCivil(Date(1970, 1, 1)) == 0
  {
  }

  /** The source's dates are the Gregorian calendar: the day after is the next date, starting at
      1970-01-01. */
  lemma DatesFollow(days: int)
    ensures CivilFromDays(days + 1) == Next(CivilFromDays(days))
    ensures CivilFromDays(0) == Date(1970, 1, 1)
  {
    var d := CivilFromDays(days);
    DaysFromCivilInverse(days);
    NextDay(d);
    CivilFromDaysInverse(Next(d));
    EpochIsDayZero();
    CivilFromDaysInverse(Date(1970, 1, 1));
  }

  // ---- calendar times --------------------------------------------------------------------------

  const YEAR_MIN: int := -0x8000_0000
  const YEAR_MAX: int := 0x7FFF_FFFF

  /** A calendar time: months, weekdays (from Sunday) and days of the year count from 0. */
  datatype Time = Time(year: int, month: int, day: int, hour: int, minute: int, second: int, weekday: int, yearday: int)

  /** Days of the year before a month (0 is January) in a year without a leap day. */
  function Before(month0: int): int {
    if month0 == 0 then 0 else if month0 == 1 then 31 else if month0 == 2 then 59 else if month0 == 3 then 90
    else if month0 == 4 then 120 else if month0 == 5 then 151 else if month0 == 6 then 181 else if month0 == 7 then 212
    else if month0 == 8 then 243 else if month0 == 9 then 273 else if month0 == 10 then 304 else 334
  }

  function YearDay(d: Date): int { Before(d.month - 1) + d.day - 1 + (if IsLeap(d.year) && d.month > 2 then 1 else 0) }

  function WeekDay(days: int): int { (days + 4) % 7 }

  /** The calendar time of a second count; a year that does not fit 32 bits becomes the largest. */
  function CalendarFromUnix(secs: int): Time {
    var days, rem := secs / 86400, secs % 86400;
    var d := CivilFromDays(days);
    Time(if YEAR_MIN <= d.year <= YEAR_MAX then d.year else YEAR_MAX, d.month - 1, d.day,
         rem / 3600, rem % 3600 / 60, rem % 60, WeekDay(days), YearDay(d))
  }

  /** What `%s` prints. */
  function UnixFromCalendar(t: Time): int {
    DaysFromCivil(Date(t.year, t.month + 1, t.day)) * 86400 + t.hour * 3600 + t.minute * 60 + t.second
  }

  /** Weekdays follow one another; 1970-01-01 was a Thursday. */
  lemma WeekDaysFollow(days: int)
    ensures WeekDay(days + 1) == (WeekDay(days) + 1) % 7 && WeekDay(0) == 4
  {
  }

  /** Months from March on, counted from January and from March. */
  lemma FromMarch(month: int)
    requires 3 <= month <= 12
    ensures Before(month - 1) == MonthStart(month - 3) + 59
  {
    MonthStarts();
  }

  /** Years that start in March follow one another: the later one starts after the leap day of the
      calendar year between them. */
  lemma MarchesFollow(era: int, yoe: int, era': int, yoe': int, year: int)
    requires 0 <= yoe < 400 && 0 <= yoe' < 400 && yoe' + era' * 400 == yoe + era * 400 + 1 == year
    ensures era' * ERA_DAYS + YearStart(yoe') == era * ERA_DAYS + YearStart(yoe) + (if IsLeap(year) then 366 else 365)
  {
    YearsFollow(era, yoe, era', yoe');
    YearLength(yoe);
    LeapOfEra(yoe, era);
    if yoe == 399 { assert YearStart(0) == 0; }
  }

  lemma JanuaryFirst(year: int) returns (era: int, yoe: int)
    ensures 0 <= yoe < 400 && yoe + era * 400 + 1 == year
    ensures Valid(Date(year, 1, 1)) && DaysFromCivil(Date(year, 1, 1)) == era * ERA_DAYS + YearStart(yoe) + 306 - EPOCH_SHIFT
  {
    var mp;
    era, yoe, mp := Parts(Date(year, 1, 1));
    MonthStarts();
  }

  lemma EarlyYearDay(d: Date)
    requires Valid(d) && d.month <= 2
    ensures YearDay(d) == DaysFromCivil(d) - DaysFromCivil(Date(d.year, 1, 1))
  {
    var era, yoe, mp := Parts(d);
    var era', yoe' := JanuaryFirst(d.year);
    SameYear(era, yoe, era', yoe');
    MonthStarts();
  }

  lemma LateYearDay(d: Date)
    requires Valid(d) && d.month > 2
    ensures YearDay(d) == DaysFromCivil(d) - DaysFromCivil(Date(d.year, 1, 1))
  {
    var era, yoe, mp := Parts(d);
    var era', yoe' := JanuaryFirst(d.year);
    MarchesFollow(era', yoe', era, yoe, d.year);
    FromMarch(d.month);
  }

  lemma YearDayInside(d: Date)
    requires Valid(d)
    ensures 0 <= YearDay(d) < (if IsLeap(d.year) then 366 else 365)
  {
  }

  /** The day of the year counts from January 1st. */
  lemma YearDayCounts(d: Date)
    requires Valid(d)
    ensures YearDay(d) == DaysFromCivil(d) - DaysFromCivil(Date(d.year, 1, 1))
    ensures 0 <= YearDay(d) < (if IsLeap(d.year) then 366 else 365)
  {
    if d.month <= 2 { EarlyYearDay(d); } else { LateYearDay(d); }
    YearDayInside(d);
  }

  /** A date and a time of day as seconds. */
  lemma SecondsBack(secs: int, d: Date, t: Time)
    requires DaysFromCivil(d) == secs / 86400 && t.year == d.year && t.month == d.month - 1 && t.day == d.day
    requires t.hour * 3600 + t.minute * 60 + t.second == secs % 86400
    ensures UnixFromCalendar(t) == secs
  {
    assert Date(t.year, t.month + 1, t.day) == d;
  }

  /** For every second count whose year fits 32 bits: a valid date of the Gregorian calendar, a time of
      day, and `%s` gives the seconds back. */
  lemma UnixRoundTrip(secs: int)
    ensures var t, d := CalendarFromUnix(secs), CivilFromDays(secs / 86400);
      && Valid(d) && t.month == d.month - 1 && t.day == d.day
      && 0 <= t.hour < 24 && 0 <= t.minute < 60 && 0 <= t.second < 60 && 0 <= t.weekday < 7
      && t.yearday == DaysFromCivil(d) - DaysFromCivil(Date(d.year, 1, 1))
      && (YEAR_MIN <= d.year <= YEAR_MAX ==> t.year == d.year && UnixFromCalendar(t) == secs)
  {
    var days, t := secs / 86400, CalendarFromUnix(secs);
    var d := CivilFromDays(days);
    DaysFromCivilInverse(days);
    YearDayCounts(d);
    DayTime(secs % 86400);
    if YEAR_MIN <= d.year <= YEAR_MAX { SecondsBack(secs, d, t); }
  }

  lemma DayTime(rem: int)
    requires 0 <= rem < 86400
    ensures 0 <= rem / 3600 < 24 && 0 <= rem % 3600 / 60 < 60 && 0 <= rem % 60 < 60
    ensures rem / 3600 * 3600 + rem % 3600 / 60 * 60 + rem % 60 == rem
  {
    assert rem % 3600 % 60 == rem % 60;
  }

  lemma YearLost(secs: int, d: Date, t: Time)
    requires d == CivilFromDays(secs / 86400) && t == CalendarFromUnix(secs) && !(YEAR_MIN <= d.year <= YEAR_MAX)
    ensures UnixFromCalendar(t) != secs
  {
    DaysFromCivilInverse(secs / 86400);
    var e := Date(YEAR_MAX, d.month, d.day);
    YearsApart(d, e);
    DayTime(secs % 86400);
    assert e == Date(t.year, t.month + 1, t.day);
    assert UnixFromCalendar(t) == DaysFromCivil(e) * 86400 + secs % 86400;
  }

  /** A year that does not fit 32 bits is not recovered: `%s` round trips exactly when it fits. */
  lemma UnixRoundTripExactly(secs: int)
    ensures UnixFromCalendar(CalendarFromUnix(secs)) == secs <==> YEAR_MIN <= CivilFromDays(secs / 86400).year <= YEAR_MAX
  {
    var d := CivilFromDays(secs / 86400);
    if YEAR_MIN <= d.year <= YEAR_MAX { UnixRoundTrip(secs); } else { YearLost(secs, d, CalendarFromUnix(secs)); }
  }

  /** Dates of years more than one apart have different numbers, and so has the same day of the year
      before or after. */
  lemma YearsApart(a: Date, b: Date)
    requires a.year != b.year && a.month == b.month && a.day == b.day && 1 <= a.month <= 12
    ensures DaysFromCivil(a) != DaysFromCivil(b)
  {
    var ya := if a.month <= 2 then a.year - 1 else a.year;
    var yb := if b.month <= 2 then b.year - 1 else b.year;
    if ya < yb { YearNumbersGrow(ya, yb); } else { YearNumbersGrow(yb, ya); }
  }

  /** Days before the year that starts in March. */
  function MarchDays(y: int): int { y / 400 * ERA_DAYS + YearStart(y % 400) }

  lemma YearNumbersGrow(a: int, b: int)
    requires a < b
    ensures MarchDays(a) < MarchDays(b)
  {
    var ea, ra, eb, rb := a / 400, a % 400, b / 400, b % 400;
    assert YearStart(ra) < ERA_DAYS && YearStart(rb) < ERA_DAYS;
    if ea == eb { StartsGrow(ra, rb); }
  }

  lemma StartsGrow(a: int, b: int)
    requires 0 <= a < b < 400
    ensures YearStart(a) < YearStart(b)
  {
    assert a / 4 <= b / 4 && b / 100 <= a / 100 + (b - a);
  }

  // ---- ISO 8601 weeks --------------------------------------------------------------------------

  /** The day of the year, relative to the Monday that starts week 1. */
  function IsoWeekDays(yday: int, wday: int): int { yday - (yday - wday + 4 + 378) % 7 + 3 }

  function YearLengthDays(y: int): int { if IsLeap(y) then 366 else 365 }

  /** The ISO week-based year and week number, as the source computes them. */
  function IsoWeek(year: int, yday: int, wday: int): (int, int) {
    var days := IsoWeekDays(yday, wday);
    if days < 0 then (year - 1, IsoWeekDays(yday + YearLengthDays(year - 1), wday) / 7 + 1)
    else
      var next := IsoWeekDays(yday - YearLengthDays(year), wday);
      if next >= 0 then (year + 1, next / 7 + 1) else (year, days / 7 + 1)
  }

  /** The day of the year of the Thursday of the same week (weeks start on Monday). */
  function ThursdayOf(yday: int, wday: int): int { yday - (wday + 6) % 7 + 3 }

  lemma Shift7(n: int, k: int)
    ensures (n + 7 * k) % 7 == n % 7
  {
  }

  /** Both fall in the same week: they differ by the day of the week. */
  lemma SameWeek(yday: int, wday: int)
    requires 0 <= wday < 7
    ensures var t := ThursdayOf(yday, wday); IsoWeekDays(yday, wday) == 7 * (t / 7) + (wday + 6) % 7
  {
    var t := ThursdayOf(yday, wday);
    if wday == 0 {
      assert yday - wday + 4 + 378 == t + 7 * 55;
      Shift7(t, 55);
    } else {
      assert yday - wday + 4 + 378 == t + 7 * 54;
      Shift7(t, 54);
    }
  }

  lemma WeekOfThursday(yday: int, wday: int)
    requires 0 <= wday < 7
    ensures IsoWeekDays(yday, wday) < 0 <==> ThursdayOf(yday, wday) < 0
    ensures IsoWeekDays(yday, wday) >= 0 ==> IsoWeekDays(yday, wday) / 7 == ThursdayOf(yday, wday) / 7
  {
    SameWeek(yday, wday);
  }

  /** ISO 8601: a week belongs to the year its Thursday is in, and is numbered by how many Thursdays of
      that year are not after it. */
  lemma IsoWeekIsThursdays(year: int, yday: int, wday: int)
    requires 0 <= wday < 7 && 0 <= yday < YearLengthDays(year)
    ensures var (y, w) := IsoWeek(year, yday, wday);
      var t := ThursdayOf(yday, wday);
      if t < 0 then y == year - 1 && w == (t + YearLengthDays(year - 1)) / 7 + 1
      else if t >= YearLengthDays(year) then y == year + 1 && w == (t - YearLengthDays(year)) / 7 + 1
      else y == year && w == t / 7 + 1
    ensures 1 <= IsoWeek(year, yday, wday).1 <= 53
  {
    WeekOfThursday(yday, wday);
    WeekOfThursday(yday + YearLengthDays(year - 1), wday);
    WeekOfThursday(yday - YearLengthDays(year), wday);
  }
}
