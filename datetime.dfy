/**
 * The part of ECMAScript's `Date` that the bucketing helpers rely on, in UTC
 * only (section 21.4.1 of ECMA-262, "Overview of Date Objects and Definitions
 * of Abstract Operations").
 *
 * A time value is an integer count of milliseconds since 1970-01-01T00:00:00Z;
 * a day number is a count of whole days since that instant.  Calendar dates are
 * proleptic Gregorian.  The conversion between day numbers and calendar dates
 * is the era/century/quadrennium decomposition of a year that begins on
 * March 1st, which keeps every step linear.
 */
module DateTime {

  const MS_PER_DAY: int := 86400000

  /** Day(t) of ECMA-262: the day number of time value t (floor division). */
  function DayNumber(t: int): int {
    t / 86400000
  }

  /** TimeWithinDay(t): milliseconds since midnight of t's day. */
  function TimeWithinDay(t: int): (ms: int)
    ensures 0 <= ms < MS_PER_DAY
  {
    t % 86400000
  }

  /** MakeDate(day, time): the time value of a day number and a time of day. */
  function MakeDate(day: int, time: int): int {
    day * 86400000 + time
  }

  lemma MakeDateParts(day: int, time: int)
    requires 0 <= time < MS_PER_DAY
    ensures DayNumber(MakeDate(day, time)) == day
    ensures TimeWithinDay(MakeDate(day, time)) == time
  {
  }

  /** WeekDay: 0 is Sunday, 1 Monday, ..., 6 Saturday; day 0 was a Thursday. */
  function WeekDay(day: int): (wd: int)
    ensures 0 <= wd < 7
  {
    (day + 4) % 7
  }

  datatype CivilDate = CivilDate(year: int, month: int, day: int)

  predicate IsLeapYear(y: int) {
    y % 4 == 0 && (y % 100 != 0 || y % 400 == 0)
  }

  function DaysInMonth(y: int, m: int): (n: int)
    ensures 28 <= n <= 31
  {
    if m == 2 then (if IsLeapYear(y) then 29 else 28)
    else if m == 4 || m == 6 || m == 9 || m == 11 then 30
    else 31
  }

  /** A calendar date that exists: month 1..12, day within that month's length. */
  predicate Valid(c: CivilDate) {
    1 <= c.month <= 12 && 1 <= c.day <= DaysInMonth(c.year, c.month)
  }

  /** Day of a 400-year era (eras begin on March 1st of a year divisible by
      400) on which the era's March-based year `yoe` begins. */
  function YearStart(yoe: int): int {
    365 * yoe + yoe / 4 - yoe / 100
  }

  /** Day of a March-based year on which its month `mp` begins (0 is March,
      11 is February). */
  function MonthStart(mp: int): int {
    (153 * mp + 2) / 5
  }

  /** Length of the era's March-based year `yoe`: it ends with February of the
      next calendar year, so it holds a leap day when that year is a leap year. */
  function YearLength(yoe: int): int {
    if yoe % 4 == 3 && (yoe % 100 != 99 || yoe == 399) then 366 else 365
  }

  /** The day number of a year, a month 1..12 and a day of month (any day, so
      that a day past the month's end runs on into the next month). */
  function DaysFromCivil(y: int, m: int, d: int): int
    requires 1 <= m <= 12
  {
    var y' := if m <= 2 then y - 1 else y;
    var mp := if m > 2 then m - 3 else m + 9;
    146097 * (y' / 400) + YearStart(y' % 400) + MonthStart(mp) + d - 1 - 719468
  }

  /** Splits a day of an era into the March-based year and the day within it.
      The fourth century of an era and the fourth year of a quadrennium are
      one day longer, so their last day is caught before dividing. */
  function SplitEra(doe: int): (int, int) {
    var c := if doe == 146096 then 3 else doe / 36524;
    var doc := doe - 36524 * c;
    var q := doc / 1461;
    var doq := doc % 1461;
    var r := if doq == 1460 then 3 else doq / 365;
    (100 * c + 4 * q + r, doq - 365 * r)
  }

  /** Year `100c + 4q + r` of an era, read as century, quadrennium and year. */
  lemma CenturyYear(c: int, q: int, r: int)
    requires 0 <= c <= 3 && 0 <= q <= 24 && 0 <= r <= 3
    ensures var yoe := 100 * c + 4 * q + r;
      YearStart(yoe) == 36524 * c + 1461 * q + 365 * r
      && (YearLength(yoe) == 366 <==> r == 3 && (q < 24 || c == 3))
  {
    var yoe := 100 * c + 4 * q + r;
    assert yoe / 4 == 25 * c + q && yoe % 4 == r;
    assert yoe / 100 == c && yoe % 100 == 4 * q + r;
  }

  /** SplitEra yields a year of the era and a day within that year's length. */
  lemma SplitEraSpec(doe: int)
    requires 0 <= doe < 146097
    ensures var yd := SplitEra(doe);
      0 <= yd.0 < 400 && 0 <= yd.1 < YearLength(yd.0) && YearStart(yd.0) + yd.1 == doe
  {
    var c := if doe == 146096 then 3 else doe / 36524;
    var doc := doe - 36524 * c;
    var q := doc / 1461;
    var doq := doc % 1461;
    var r := if doq == 1460 then 3 else doq / 365;
    assert 0 <= c <= 3 && 0 <= doc <= 36524 && 0 <= q <= 24 && 0 <= r <= 3;
    assert doq == 1460 ==> q < 24 || c == 3;
    CenturyYear(c, q, r);
    assert SplitEra(doe) == (100 * c + 4 * q + r, doq - 365 * r);
  }

  /** Splits a day of a March-based year into the month and the day of month. */
  function SplitYear(doy: int): (int, int) {
    var mp := (5 * doy + 2) / 153;
    (mp, doy - MonthStart(mp) + 1)
  }

  /** SplitYear yields a month of the March-based year and a day in it, and
      the day falls before the next month's start (February, mp == 11, runs
      to the end of the year). */
  lemma SplitYearSpec(doy: int)
    requires 0 <= doy < 366
    ensures var md := SplitYear(doy);
      0 <= md.0 < 12 && 1 <= md.1 && MonthStart(md.0) + md.1 - 1 == doy
      && (md.0 < 11 ==> doy < MonthStart(md.0 + 1))
  {
  }

  /** The calendar month of March-based month `mp`. */
  function CalendarMonth(mp: int): int {
    if mp < 10 then mp + 3 else mp - 9
  }

  lemma MonthLengths(y: int, mp: int)
    requires 0 <= mp < 11
    ensures MonthStart(mp + 1) - MonthStart(mp) == DaysInMonth(y, CalendarMonth(mp))
  {
  }

  /** The March-based year `yoe` of an era holds a leap day exactly when the
      calendar year in which it ends is a leap year. */
  lemma YearLengthLeap(era: int, yoe: int)
    requires 0 <= yoe < 400
    ensures YearLength(yoe) == 366 <==> IsLeapYear(400 * era + yoe + 1)
  {
    var y := 400 * era + yoe + 1;
    var a := yoe + 1;
    assert y / 4 == 100 * era + a / 4;
    assert y / 100 == 4 * era + a / 100;
    assert y / 400 == era + a / 400;
  }

  /** The calendar date of day `doy` of the March-based year `yoe` of an era. */
  function MarchDate(era: int, yoe: int, doy: int): CivilDate {
    var md := SplitYear(doy);
    var m := CalendarMonth(md.0);
    CivilDate(400 * era + yoe + (if m <= 2 then 1 else 0), m, md.1)
  }

  lemma MarchDateValid(era: int, yoe: int, doy: int)
    requires 0 <= yoe < 400 && 0 <= doy < YearLength(yoe)
    ensures Valid(MarchDate(era, yoe, doy))
  {
    var md := SplitYear(doy);
    SplitYearSpec(doy);
    if md.0 == 11 {
      YearLengthLeap(era, yoe);
    } else {
      MonthLengths(MarchDate(era, yoe, doy).year, md.0);
    }
  }

  /** The calendar date of a day number. */
  function CivilFromDays(z: int): CivilDate {
    var z' := z + 719468;
    var yd := SplitEra(z' % 146097);
    MarchDate(z' / 146097, yd.0, yd.1)
  }

  /** CivilFromDays with the shifted day split into its era and day of era. */
  lemma CivilFromDaysParts(z: int, era: int, doe: int)
    requires 0 <= doe < 146097 && z + 719468 == 146097 * era + doe
    ensures CivilFromDays(z) == MarchDate(era, SplitEra(doe).0, SplitEra(doe).1)
  {
    var z' := z + 719468;
    assert z' / 146097 == era && z' % 146097 == doe;
  }

  /** DaysFromCivil with the shifted year split into its era and year of era. */
  lemma DaysFromCivilParts(y: int, m: int, d: int, era: int, yoe: int)
    requires 1 <= m <= 12 && 0 <= yoe < 400
    requires (if m <= 2 then y - 1 else y) == 400 * era + yoe
    ensures DaysFromCivil(y, m, d)
      == 146097 * era + YearStart(yoe) + MonthStart(if m > 2 then m - 3 else m + 9) + d - 1 - 719468
  {
    var y' := if m <= 2 then y - 1 else y;
    assert y' / 400 == era && y' % 400 == yoe;
  }

  lemma CivilFromDaysValid(z: int)
    ensures Valid(CivilFromDays(z))
  {
    var era, doe := (z + 719468) / 146097, (z + 719468) % 146097;
    CivilFromDaysParts(z, era, doe);
    SplitEraSpec(doe);
    MarchDateValid(era, SplitEra(doe).0, SplitEra(doe).1);
  }

  /** The day number of a March-based date, read back from its calendar date. */
  lemma MarchDateInverse(era: int, yoe: int, doy: int)
    requires 0 <= yoe < 400 && 0 <= doy < 366
    ensures var c := MarchDate(era, yoe, doy);
      1 <= c.month <= 12
      && DaysFromCivil(c.year, c.month, c.day) == 146097 * era + YearStart(yoe) + doy - 719468
  {
    SplitYearSpec(doy);
    var md := SplitYear(doy);
    var c := MarchDate(era, yoe, doy);
    assert (if c.month > 2 then c.month - 3 else c.month + 9) == md.0;
    DaysFromCivilParts(c.year, c.month, c.day, era, yoe);
  }

  lemma DaysFromCivilInverse(z: int)
    ensures var c := CivilFromDays(z); 1 <= c.month <= 12 && DaysFromCivil(c.year, c.month, c.day) == z
  {
    var era, doe := (z + 719468) / 146097, (z + 719468) % 146097;
    CivilFromDaysParts(z, era, doe);
    SplitEraSpec(doe);
    MarchDateInverse(era, SplitEra(doe).0, SplitEra(doe).1);
  }

  lemma YearStartStep(yoe: int)
    requires 0 <= yoe < 399
    ensures YearStart(yoe + 1) == YearStart(yoe) + YearLength(yoe)
  {
    var q, r := yoe / 4, yoe % 4;
    assert (yoe + 1) / 4 == if r == 3 then q + 1 else q;
    var q', r' := yoe / 100, yoe % 100;
    assert (yoe + 1) / 100 == if r' == 99 then q' + 1 else q';
    assert r' == 99 ==> r == 3;
  }

  /** SplitEra on a day given as century, quadrennium, year and day of year. */
  lemma SplitEraParts(doe: int, c: int, q: int, r: int, doy: int)
    requires 0 <= c <= 3 && 0 <= q <= 24 && 0 <= r <= 3 && 0 <= doy
    requires 365 * r + doy < 1461 && (if 365 * r + doy == 1460 then r == 3 else doy < 365)
    requires doe == 36524 * c + 1461 * q + 365 * r + doy
    requires if doe == 146096 then c == 3 else 1461 * q + 365 * r + doy < 36524
    ensures SplitEra(doe) == (100 * c + 4 * q + r, doy)
  {
    var c' := if doe == 146096 then 3 else doe / 36524;
    assert c' == c;
    var doq := 365 * r + doy;
    assert (doe - 36524 * c) / 1461 == q && (doe - 36524 * c) % 1461 == doq;
    if doq != 1460 {
      assert doq / 365 == r;
    }
  }

  /** SplitEra recovers every year and day that it can produce. */
  lemma SplitEraUnique(yoe: int, doy: int)
    requires 0 <= yoe < 400 && 0 <= doy < YearLength(yoe)
    ensures YearStart(yoe) + doy < 146097
    ensures SplitEra(YearStart(yoe) + doy) == (yoe, doy)
  {
    var c, q, r := yoe / 100, yoe % 100 / 4, yoe % 4;
    assert yoe == 100 * c + 4 * q + r;
    CenturyYear(c, q, r);
    SplitEraParts(YearStart(yoe) + doy, c, q, r, doy);
  }

  /** SplitYear recovers every month and day that it can produce. */
  lemma SplitYearUnique(mp: int, d: int)
    requires 0 <= mp < 12 && 1 <= d
    requires MonthStart(mp) + d - 1 < 366
    requires mp < 11 ==> MonthStart(mp) + d - 1 < MonthStart(mp + 1)
    ensures SplitYear(MonthStart(mp) + d - 1) == (mp, d)
  {
  }

  /** A day number given as an era, a March-based year and a day of that year
      converts to the date those three name. */
  lemma CivilFromEraParts(z: int, era: int, yoe: int, doy: int)
    requires 0 <= yoe < 400 && 0 <= doy < YearLength(yoe)
    requires z + 719468 == 146097 * era + YearStart(yoe) + doy
    ensures CivilFromDays(z) == MarchDate(era, yoe, doy)
  {
    SplitEraUnique(yoe, doy);
    CivilFromDaysParts(z, era, YearStart(yoe) + doy);
  }

  /** A valid date sits within its March-based year, at the place MarchDate
      reads it back from. */
  lemma MarchYearOfCivil(c: CivilDate, era: int, yoe: int, doy: int)
    requires Valid(c) && 0 <= yoe < 400
    requires (if c.month <= 2 then c.year - 1 else c.year) == 400 * era + yoe
    requires doy == MonthStart(if c.month > 2 then c.month - 3 else c.month + 9) + c.day - 1
    ensures 0 <= doy < YearLength(yoe) && MarchDate(era, yoe, doy) == c
  {
    var mp := if c.month > 2 then c.month - 3 else c.month + 9;
    if mp < 11 {
      MonthLengths(c.year, mp);
    } else {
      YearLengthLeap(era, yoe);
    }
    SplitYearUnique(mp, c.day);
    assert CalendarMonth(mp) == c.month;
  }

  lemma CivilFromDaysInverse(c: CivilDate)
    requires Valid(c)
    ensures CivilFromDays(DaysFromCivil(c.year, c.month, c.day)) == c
  {
    var y' := if c.month <= 2 then c.year - 1 else c.year;
    var era, yoe := y' / 400, y' % 400;
    var doy := MonthStart(if c.month > 2 then c.month - 3 else c.month + 9) + c.day - 1;
    MarchYearOfCivil(c, era, yoe, doy);
    var z := DaysFromCivil(c.year, c.month, c.day);
    DaysFromCivilParts(c.year, c.month, c.day, era, yoe);
    CivilFromEraParts(z, era, yoe, doy);
  }

  /** Section 21.4.1.3 of ECMA-262: the day number of January 1st of year y. */
  function DayFromYear(y: int): int {
    365 * (y - 1970) + (y - 1969) / 4 - (y - 1901) / 100 + (y - 1601) / 400
  }

  /** The conversion agrees with ECMA-262's own formula for the first day of a year. */
  lemma DaysFromCivilFirstOfYear(y: int)
    ensures DaysFromCivil(y, 1, 1) == DayFromYear(y)
  {
    var y' := y - 1;
    var e, r := y' / 400, y' % 400;
    assert y' == 400 * e + r;
    assert (y - 1969) / 4 == 100 * e + r / 4 - 492;
    assert (y - 1901) / 100 == 4 * e + r / 100 - 19;
    assert (y - 1601) / 400 == e - 4;
  }

  lemma DaysFromCivilFromFirst(y: int, m: int, d: int)
    requires 1 <= m <= 12
    ensures DaysFromCivil(y, m, d) == DaysFromCivil(y, m, 1) + d - 1
  {
  }

  lemma DaysFromCivilShift(y: int, m: int, d: int, k: int)
    requires 1 <= m <= 12
    ensures DaysFromCivil(y, m, d + k) == DaysFromCivil(y, m, d) + k
  {
  }

  /** CivilFromDaysInverse for a date given by its three fields. */
  lemma CivilFromDaysInverseOf(y: int, m: int, d: int)
    requires Valid(CivilDate(y, m, d))
    ensures CivilFromDays(DaysFromCivil(y, m, d)) == CivilDate(y, m, d)
  {
    CivilFromDaysInverse(CivilDate(y, m, d));
  }

  /** The calendar month that follows month m (1..12) of year y. */
  function NextMonth(y: int, m: int): (next: (int, int))
    ensures 1 <= m <= 12 ==> 1 <= next.1 <= 12
  {
    if m == 12 then (y + 1, 1) else (y, m + 1)
  }

  /** A month's first day plus its length is the first day of the next month. */
  lemma MonthRunsIntoNext(y: int, m: int)
    requires 1 <= m <= 12
    ensures var (ny, nm) := NextMonth(y, m);
      DaysFromCivil(y, m, 1) + DaysInMonth(y, m) == DaysFromCivil(ny, nm, 1)
  {
    if m == 2 {
      FebruaryRunsIntoMarch(y);
    } else if m < 12 {
      var mp := if m > 2 then m - 3 else m + 9;
      MonthLengths(y, mp);
    }
  }

  /** February is the last month of a March-based year, so the step crosses
      into the next such year, and at the end of an era into the next era. */
  lemma FebruaryRunsIntoMarch(y: int)
    ensures DaysFromCivil(y, 2, 1) + DaysInMonth(y, 2) == DaysFromCivil(y, 3, 1)
  {
    var e, r := (y - 1) / 400, (y - 1) % 400;
    assert y == 400 * e + r + 1;
    if r < 399 {
      FebruaryWithinEra(y, e, r);
    } else {
      FebruaryEndsEra(y, e);
    }
  }

  lemma FebruaryWithinEra(y: int, e: int, r: int)
    requires 0 <= r < 399 && y == 400 * e + r + 1
    ensures DaysFromCivil(y, 2, 1) + DaysInMonth(y, 2) == DaysFromCivil(y, 3, 1)
  {
    DaysFromCivilParts(y, 2, 1, e, r);
    DaysFromCivilParts(y, 3, 1, e, r + 1);
    YearLengthLeap(e, r);
    YearStartStep(r);
  }

  lemma FebruaryEndsEra(y: int, e: int)
    requires y == 400 * e + 400
    ensures DaysFromCivil(y, 2, 1) + DaysInMonth(y, 2) == DaysFromCivil(y, 3, 1)
  {
    DaysFromCivilParts(y, 2, 1, e, 399);
    DaysFromCivilParts(y, 3, 1, e + 1, 0);
    YearLengthLeap(e, 399);
    assert YearStart(399) + 366 == 146097;
  }

  /** YearFromTime, MonthFromTime (0 is January) and DateFromTime (1-based). */
  function YearFromTime(t: int): int {
    CivilFromDays(DayNumber(t)).year
  }

  function MonthFromTime(t: int): (m: int)
    ensures 0 <= m < 12
  {
    CivilFromDaysValid(DayNumber(t));
    CivilFromDays(DayNumber(t)).month - 1
  }

  function DateFromTime(t: int): (d: int)
    ensures 1 <= d <= 31
  {
    CivilFromDaysValid(DayNumber(t));
    CivilFromDays(DayNumber(t)).day
  }

  /** MakeDay(year, month, date) of ECMA-262: the first day of the month that
      `month` (0-based, any integer) denotes after carrying whole years into
      `year`, plus `date - 1` days, so that out-of-range dates spill over. */
  function MakeDay(year: int, month: int, date: int): int {
    DaysFromCivil(year + month / 12, month % 12 + 1, 1) + date - 1
  }

  /** MakeDay with an in-range month index is DaysFromCivil. */
  lemma MakeDayInRange(y: int, m: int, d: int)
    requires 1 <= m <= 12
    ensures MakeDay(y, m - 1, d) == DaysFromCivil(y, m, d)
  {
    assert (m - 1) / 12 == 0 && (m - 1) % 12 == m - 1;
  }

  /** Rebuilding a day from its own year, month and date, offset by k days. */
  lemma MakeDayOfTime(t: int, k: int)
    ensures MakeDay(YearFromTime(t), MonthFromTime(t), DateFromTime(t) + k) == DayNumber(t) + k
  {
    var day := DayNumber(t);
    var c := CivilFromDays(day);
    DaysFromCivilInverse(day);
    var y, m, d := YearFromTime(t), MonthFromTime(t), DateFromTime(t);
    assert y == c.year && m + 1 == c.month && d == c.day;
    MakeDayOfDate(y, m, d, c.month, day, k);
  }

  /** MakeDay of a date known to be day `z`, offset by k days. */
  lemma MakeDayOfDate(y: int, m: int, d: int, month: int, z: int, k: int)
    requires 0 <= m < 12 && month == m + 1 && DaysFromCivil(y, month, d) == z
    ensures MakeDay(y, m, d + k) == z + k
  {
    MakeDayInRange(y, month, d + k);
    DaysFromCivilShift(y, month, d, k);
  }

  /**
   * A JavaScript `Date` in UTC: a mutable holder of one time value.  Only the
   * operations the bucketing helpers use are modelled; each setter follows the
   * steps of its section of ECMA-262 (Date.prototype.setUTCDate,
   * Date.prototype.setUTCHours, Date.prototype.setUTCMonth) for integral
   * arguments.
   */
  class Date {
    var time: int

    constructor (t: int)
      ensures time == t
    {
      time := t;
    }

    function GetUTCDay(): (wd: int)
      reads this
      ensures 0 <= wd < 7
    {
      WeekDay(DayNumber(time))
    }

    function GetUTCDate(): (d: int)
      reads this
      ensures 1 <= d <= 31
    {
      DateFromTime(time)
    }

    function GetUTCMonth(): (m: int)
      reads this
      ensures 0 <= m < 12
    {
      MonthFromTime(time)
    }

    method SetUTCDate(date: int)
      modifies this
      ensures time == MakeDate(MakeDay(YearFromTime(old(time)), MonthFromTime(old(time)), date), TimeWithinDay(old(time)))
    {
      time := MakeDate(MakeDay(YearFromTime(time), MonthFromTime(time), date), TimeWithinDay(time));
    }

    method SetUTCMonth(month: int)
      modifies this
      ensures time == MakeDate(MakeDay(YearFromTime(old(time)), month, DateFromTime(old(time))), TimeWithinDay(old(time)))
    {
      time := MakeDate(MakeDay(YearFromTime(time), month, DateFromTime(time)), TimeWithinDay(time));
    }

    method SetUTCHours(hour: int, min: int, sec: int, ms: int)
      modifies this
      ensures time == MakeDate(DayNumber(old(time)), hour * 3600000 + min * 60000 + sec * 1000 + ms)
    {
      time := MakeDate(DayNumber(time), hour * 3600000 + min * 60000 + sec * 1000 + ms);
    }
  }
}
