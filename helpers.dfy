/**
 * Bucket truncation and bucket-axis generation (server/helpers.ts).
 *
 * A bucket key is the `YYYY-MM-DD` text of a UTC day; here it is that day's
 * number.  With four-digit years the text sorts in the same order as the
 * numbers, so comparisons of keys become integer comparisons.
 */
module Helpers {
  import opened DateTime
  import opened Types
  import opened Sorting

  /** `date.toISOString().slice(0, 10)`: the UTC day of an instant. */
  function DateKey(t: int): int {
    DayNumber(t)
  }

  /** `new Date(key)` for a date-only key: midnight UTC of that day. */
  function KeyTime(key: int): int {
    key * 86400000
  }

  lemma KeyTimeBounds(t: int)
    ensures KeyTime(DateKey(t)) <= t < KeyTime(DateKey(t)) + MS_PER_DAY
    ensures DateKey(KeyTime(DateKey(t))) == DateKey(t)
  {
  }

  /** `date.getUTCDay() || 7`: Monday is 1, Sunday is 7. */
  function IsoWeekday(day: int): (n: int)
    ensures 1 <= n <= 7
  {
    var wd := WeekDay(day);
    if wd == 0 then 7 else wd
  }

  /** The Monday of the week that ends on a Sunday. */
  function MondayOf(day: int): int {
    day - (IsoWeekday(day) - 1)
  }

  /** Day 1 of the day's own calendar month. */
  function FirstOfMonth(day: int): int {
    var c := CivilFromDays(day);
    CivilFromDaysValid(day);
    DaysFromCivil(c.year, c.month, 1)
  }

  /** The bucket key of an instant: its day, the Monday of its week, or day 1
      of its month. */
  function Truncate(t: int, grain: Grain): int {
    match grain
    case Day => DateKey(t)
    case Week => MondayOf(DayNumber(t))
    case Month => FirstOfMonth(DayNumber(t))
  }

  /** Moves a date back to the Monday of its week, keeping the time of day. */
  method GetMonday(date: Date)
    modifies date
    ensures DayNumber(date.time) == MondayOf(DayNumber(old(date.time)))
    ensures TimeWithinDay(date.time) == TimeWithinDay(old(date.time))
  {
    var dayOfWeek := date.GetUTCDay();
    if dayOfWeek == 0 {
      dayOfWeek := 7;
    }
    ghost var t := date.time;
    date.SetUTCDate(date.GetUTCDate() - (dayOfWeek - 1));
    MakeDayOfTime(t, -(dayOfWeek - 1));
  }

  /** `setUTCDate(1)` lands on the first day of the month. */
  lemma FirstOfMonthByMakeDay(t: int, t': int)
    requires t' == MakeDate(MakeDay(YearFromTime(t), MonthFromTime(t), 1), TimeWithinDay(t))
    ensures DayNumber(t') == FirstOfMonth(DayNumber(t))
  {
    var c := CivilFromDays(DayNumber(t));
    CivilFromDaysValid(DayNumber(t));
    MakeDayInRange(c.year, c.month, 1);
    MakeDateParts(FirstOfMonth(DayNumber(t)), TimeWithinDay(t));
  }

  /** `setUTCHours(0, 0, 0, 0)` keeps the day and drops the time of day. */
  lemma MidnightKeepsDay(t: int, t': int)
    requires t' == MakeDate(DayNumber(t), 0)
    ensures DateKey(t') == DayNumber(t)
  {
    MakeDateParts(DayNumber(t), 0);
  }

  /** The bucket key of `date`; the caller's date is copied, never changed. */
  method TruncateDate(date: Date, grain: Grain) returns (key: int)
    ensures key == Truncate(date.time, grain)
  {
    ghost var t := date.time;
    var d := new Date(date.time);
    if grain == Month {
      d.SetUTCDate(1);
      FirstOfMonthByMakeDay(t, d.time);
      assert DayNumber(d.time) == Truncate(t, Month);
    } else if grain == Week {
      GetMonday(d);
      assert DayNumber(d.time) == Truncate(t, Week);
    }
    assert DayNumber(d.time) == Truncate(t, grain);
    ghost var before := d.time;
    d.SetUTCHours(0, 0, 0, 0);
    MidnightKeepsDay(before, d.time);
    key := DateKey(d.time);
  }

  /** The day one step after `day`: the next day, the same weekday a week
      later, or the same date in the next month as `setUTCMonth` computes it,
      spilling into the month after when that date does not exist. */
  function StepDay(day: int, grain: Grain): (next: int)
    ensures next > day
  {
    match grain
    case Day => day + 1
    case Week => day + 7
    case Month =>
      var c := CivilFromDays(day);
      CivilFromDaysValid(day);
      StepDayMonthAhead(day);
      MakeDay(c.year, c.month, c.day)
  }

  /** The month step lands exactly one month length after the day. */
  lemma StepDayMonthAhead(day: int)
    ensures var c := CivilFromDays(day);
      MakeDay(c.year, c.month, c.day) == day + DaysInMonth(c.year, c.month)
  {
    var c := CivilFromDays(day);
    CivilFromDaysValid(day);
    DaysFromCivilInverse(day);
    DaysFromCivilFromFirst(c.year, c.month, c.day);
    MonthRunsIntoNext(c.year, c.month);
    var next := NextMonth(c.year, c.month);
    MakeDayNextMonth(c.year, c.month, c.day);
    DaysFromCivilFromFirst(next.0, next.1, c.day);
  }

  /** One step of the series walk on an instant; the time of day is kept. */
  function Step(t: int, grain: Grain): (next: int)
    ensures next > t
    ensures DayNumber(next) == StepDay(DayNumber(t), grain)
    ensures TimeWithinDay(next) == TimeWithinDay(t)
  {
    MakeDate(StepDay(DayNumber(t), grain), TimeWithinDay(t))
  }

  /** `setUTCMonth(getUTCMonth() + 1)` takes exactly one month step. */
  lemma MonthStepBySetter(t: int)
    ensures MakeDate(MakeDay(YearFromTime(t), MonthFromTime(t) + 1, DateFromTime(t)), TimeWithinDay(t)) == Step(t, Month)
  {
    CivilFromDaysValid(DayNumber(t));
  }

  /** The keys of the instants `current`, `Step(current)`, ... that lie
      strictly before `end`. */
  function Series(current: int, end: int, grain: Grain): seq<int>
    decreases end - current
  {
    if current < end then [DateKey(current)] + Series(Step(current, grain), end, grain) else []
  }

  /** The bucket axis: keys from `from` while the walk stays before `to`. */
  method GenerateSeries(from: int, to: int, grain: Grain) returns (result: seq<int>)
    ensures result == Series(from, to, grain)
  {
    result := [];
    var current := new Date(from);
    var end := to;
    while current.time < end
      invariant Series(from, to, grain) == result + Series(current.time, to, grain)
      decreases end - current.time
    {
      ghost var t := current.time;
      SeriesStep(from, to, grain, result, t);
      result := result + [DateKey(current.time)];
      Advance(current, grain);
    }
  }

  /** The branch on the grain inside the walk's loop: one day, one week or one
      calendar month further, by the setter the walk uses for that grain. */
  method Advance(current: Date, grain: Grain)
    modifies current
    ensures current.time == Step(old(current.time), grain)
  {
    ghost var t := current.time;
    if grain == Day {
      var date := current.GetUTCDate();
      current.SetUTCDate(date + 1);
      DateSetterSteps(t, date, current.time, 1, Day);
    } else if grain == Week {
      var date := current.GetUTCDate();
      current.SetUTCDate(date + 7);
      DateSetterSteps(t, date, current.time, 7, Week);
    } else {
      var month := current.GetUTCMonth();
      current.SetUTCMonth(month + 1);
      MonthSetterSteps(t, month, current.time);
    }
  }

  /** One pass of the walk: the key of `t` moves from the rest of the series
      onto the end of what has been emitted. */
  lemma SeriesStep(from: int, to: int, grain: Grain, result: seq<int>, t: int)
    requires t < to && Series(from, to, grain) == result + Series(t, to, grain)
    ensures Series(from, to, grain) == (result + [DateKey(t)]) + Series(Step(t, grain), to, grain)
  {
    SeriesUnfold(t, to, grain);
    AppendAssociates(result, [DateKey(t)], Series(Step(t, grain), to, grain));
  }

  lemma SeriesUnfold(t: int, to: int, grain: Grain)
    requires t < to
    ensures Series(t, to, grain) == [DateKey(t)] + Series(Step(t, grain), to, grain)
  {
  }

  lemma AppendAssociates<T>(a: seq<T>, b: seq<T>, c: seq<T>)
    ensures a + (b + c) == (a + b) + c
  {
  }

  /** `setUTCDate(getUTCDate() + k)` for the day and week walks. */
  lemma DateSetterSteps(t: int, date: int, t': int, k: int, grain: Grain)
    requires grain != Month && k == (if grain == Day then 1 else 7) && date == DateFromTime(t)
    requires t' == MakeDate(MakeDay(YearFromTime(t), MonthFromTime(t), date + k), TimeWithinDay(t))
    ensures t' == Step(t, grain)
  {
    MakeDayOfTime(t, k);
  }

  /** `setUTCMonth(getUTCMonth() + 1)` for the month walk. */
  lemma MonthSetterSteps(t: int, month: int, t': int)
    requires month == MonthFromTime(t)
    requires t' == MakeDate(MakeDay(YearFromTime(t), month + 1, DateFromTime(t)), TimeWithinDay(t))
    ensures t' == Step(t, Month)
  {
    MonthStepBySetter(t);
  }

  // ---------------------------------------------------------------------------
  // Properties of truncation
  // ---------------------------------------------------------------------------

  /** A key is a bucket key of a grain when truncating its own midnight gives
      it back. */
  predicate IsBucketKey(key: int, grain: Grain) {
    Truncate(KeyTime(key), grain) == key
  }

  /** FirstOfMonth moves back by the day of month less one. */
  lemma FirstOfMonthOffset(day: int)
    ensures FirstOfMonth(day) == day - (CivilFromDays(day).day - 1)
    ensures CivilFromDays(FirstOfMonth(day)) == CivilDate(CivilFromDays(day).year, CivilFromDays(day).month, 1)
  {
    var c := CivilFromDays(day);
    CivilFromDaysValid(day);
    DaysFromCivilInverse(day);
    DaysFromCivilFromFirst(c.year, c.month, c.day);
    CivilFromDaysInverseOf(c.year, c.month, 1);
  }

  /** Month bucket keys are exactly the first days of months. */
  lemma MonthBucketKeys(key: int)
    ensures IsBucketKey(key, Month) <==> CivilFromDays(key).day == 1
  {
    KeyTimeBounds(KeyTime(key));
    assert DayNumber(KeyTime(key)) == key;
    FirstOfMonthOffset(key);
  }

  /** Day grain: the key is the instant's own UTC day with the time dropped. */
  lemma TruncateDayContains(t: int)
    ensures KeyTime(Truncate(t, Day)) <= t < KeyTime(Truncate(t, Day)) + MS_PER_DAY
  {
    KeyTimeBounds(t);
  }

  /** Week grain: a Monday zero to six days back; a Sunday goes back six days
      and a Monday stays where it is. */
  lemma TruncateWeekIsMonday(t: int)
    ensures var day, key := DayNumber(t), Truncate(t, Week);
      WeekDay(key) == 1 && 0 <= day - key <= 6
      && (WeekDay(day) == 0 ==> key == day - 6)
      && (WeekDay(day) == 1 ==> key == day)
  {
  }

  /** Month grain: day 1 of the instant's own UTC year and month. */
  lemma TruncateMonthIsFirst(t: int)
    ensures var c, key := CivilFromDays(DayNumber(t)), Truncate(t, Month);
      CivilFromDays(key) == CivilDate(c.year, c.month, 1)
      && key <= DayNumber(t) < key + DaysInMonth(c.year, c.month)
  {
    CivilFromDaysValid(DayNumber(t));
    FirstOfMonthOffset(DayNumber(t));
  }

  lemma WeekKeyIsGreatest(day: int, key: int)
    requires IsBucketKey(key, Week) && key <= day
    ensures key <= MondayOf(day)
  {
    assert DayNumber(KeyTime(key)) == key;
  }

  lemma MonthKeyIsGreatest(day: int, key: int)
    requires IsBucketKey(key, Month) && key <= day
    ensures key <= FirstOfMonth(day)
  {
    var r := FirstOfMonth(day);
    var c := CivilFromDays(day);
    CivilFromDaysValid(day);
    FirstOfMonthOffset(day);
    MonthBucketKeys(key);
    if r < key {
      var d := 1 + (key - r);
      DaysFromCivilFromFirst(c.year, c.month, d);
      assert key == DaysFromCivil(c.year, c.month, d);
      CivilFromDaysInverseOf(c.year, c.month, d);
    }
  }

  /** The key of an instant is the greatest bucket key not after its day. */
  lemma TruncateIsGreatestBucketKey(t: int, grain: Grain)
    ensures IsBucketKey(Truncate(t, grain), grain)
    ensures Truncate(t, grain) <= DateKey(t)
    ensures forall key :: IsBucketKey(key, grain) && key <= DateKey(t) ==> key <= Truncate(t, grain)
  {
    match grain
    case Day => DayTruncateIsGreatest(t);
    case Week => WeekTruncateIsGreatest(t);
    case Month => MonthTruncateIsGreatest(t);
  }

  lemma DayTruncateIsGreatest(t: int)
    ensures IsBucketKey(Truncate(t, Day), Day) && Truncate(t, Day) <= DateKey(t)
    ensures forall key :: IsBucketKey(key, Day) && key <= DateKey(t) ==> key <= Truncate(t, Day)
  {
    var r := Truncate(t, Day);
    assert DayNumber(KeyTime(r)) == r;
  }

  lemma WeekTruncateIsGreatest(t: int)
    ensures IsBucketKey(Truncate(t, Week), Week) && Truncate(t, Week) <= DateKey(t)
    ensures forall key :: IsBucketKey(key, Week) && key <= DateKey(t) ==> key <= Truncate(t, Week)
  {
    var r := Truncate(t, Week);
    assert DayNumber(KeyTime(r)) == r;
    forall key | IsBucketKey(key, Week) && key <= DateKey(t)
      ensures key <= Truncate(t, Week)
    {
      WeekKeyIsGreatest(DateKey(t), key);
    }
  }

  lemma MonthTruncateIsGreatest(t: int)
    ensures IsBucketKey(Truncate(t, Month), Month) && Truncate(t, Month) <= DateKey(t)
    ensures forall key :: IsBucketKey(key, Month) && key <= DateKey(t) ==> key <= Truncate(t, Month)
  {
    var r := Truncate(t, Month);
    FirstOfMonthOffset(DayNumber(t));
    MonthBucketKeys(r);
    forall key | IsBucketKey(key, Month) && key <= DateKey(t)
      ensures key <= r
    {
      MonthKeyIsGreatest(DateKey(t), key);
    }
  }

  /** Truncating a key again changes nothing. */
  lemma TruncateIdempotent(t: int, grain: Grain)
    ensures Truncate(KeyTime(Truncate(t, grain)), grain) == Truncate(t, grain)
  {
    TruncateIsGreatestBucketKey(t, grain);
  }

  /** Truncation never moves a later instant to an earlier key. */
  lemma TruncateMonotone(t1: int, t2: int, grain: Grain)
    requires t1 <= t2
    ensures Truncate(t1, grain) <= Truncate(t2, grain)
  {
    TruncateIsGreatestBucketKey(t1, grain);
    TruncateIsGreatestBucketKey(t2, grain);
    assert DateKey(t1) <= DateKey(t2);
  }

  // ---------------------------------------------------------------------------
  // Properties of the series walk
  // ---------------------------------------------------------------------------

  /** `MakeDay` with a 1-based month index lands in the following month. */
  lemma MakeDayNextMonth(y: int, m: int, d: int)
    requires 1 <= m <= 12
    ensures MakeDay(y, m, d) == DaysFromCivil(NextMonth(y, m).0, NextMonth(y, m).1, d)
  {
    if m == 12 {
      assert m / 12 == 1 && m % 12 == 0;
    } else {
      assert m / 12 == 0 && m % 12 == m;
    }
  }

  /** A month step keeps the date when the next month has it. */
  lemma MonthStepKeepsDate(day: int)
    requires var c := CivilFromDays(day);
      c.day <= DaysInMonth(NextMonth(c.year, c.month).0, NextMonth(c.year, c.month).1)
    ensures var c := CivilFromDays(day);
      CivilFromDays(StepDay(day, Month)) == CivilDate(NextMonth(c.year, c.month).0, NextMonth(c.year, c.month).1, c.day)
  {
    var c := CivilFromDays(day);
    CivilFromDaysValid(day);
    var next := NextMonth(c.year, c.month);
    MakeDayNextMonth(c.year, c.month, c.day);
    assert StepDay(day, Month) == DaysFromCivil(next.0, next.1, c.day);
    CivilFromDaysInverseOf(next.0, next.1, c.day);
  }

  /** The first day of a month steps to the first day of the next month. */
  lemma MonthStepFromFirst(day: int)
    requires CivilFromDays(day).day == 1
    ensures var c := CivilFromDays(day);
      CivilFromDays(StepDay(day, Month)) == CivilDate(NextMonth(c.year, c.month).0, NextMonth(c.year, c.month).1, 1)
  {
    MonthStepKeepsDate(day);
  }

  /** `setUTCMonth` overflow: from 2025-01-31 (day 20119) one month step lands
      on 2025-03-03 (day 20150), skipping February. */
  lemma MonthStepOverflows()
    ensures CivilFromDays(20119) == CivilDate(2025, 1, 31)
    ensures StepDay(20119, Month) == 20150
    ensures CivilFromDays(20150) == CivilDate(2025, 3, 3)
  {
    assert 2024 / 400 == 5 && 2024 % 400 == 24 && 2025 / 400 == 5 && 2025 % 400 == 25;
    assert YearStart(24) == 8766 && YearStart(25) == 9131;
    assert MonthStart(0) == 0 && MonthStart(10) == 306 && MonthStart(11) == 337;
    assert DaysFromCivil(2025, 1, 31) == 20119;
    CivilFromDaysInverse(CivilDate(2025, 1, 31));
    assert DaysFromCivil(2025, 3, 3) == 20150;
    CivilFromDaysInverse(CivilDate(2025, 3, 3));
    assert MakeDay(2025, 1, 31) == DaysFromCivil(2025, 2, 1) + 30 == 20150;
  }

  // ---------------------------------------------------------------------------
  // Shape of the bucket axis
  // ---------------------------------------------------------------------------


  /** The walk is empty exactly when `from` is not before `to`, and otherwise
      starts at the key of `from`. */
  lemma SeriesStart(from: int, to: int, grain: Grain)
    ensures var s := Series(from, to, grain);
      (s == [] <==> to <= from) && (from < to ==> s[0] == DateKey(from))
  {
  }

  /** Every key of the walk is at or after the key of `from`, and its midnight
      is before `to`. */
  lemma {:induction false} SeriesBounds(from: int, to: int, grain: Grain)
    decreases to - from
    ensures forall i :: 0 <= i < |Series(from, to, grain)| ==> SeriesBound(from, to, Series(from, to, grain)[i])
  {
    if from < to {
      var next := Step(from, grain);
      var s, rest := Series(from, to, grain), Series(next, to, grain);
      SeriesBounds(next, to, grain);
      KeyTimeBounds(from);
      StepAdvancesKey(from, grain);
      SeriesUnfold(from, to, grain);
      forall i | 0 <= i < |s|
        ensures SeriesBound(from, to, s[i])
      {
        if i > 0 {
          assert s[i] == rest[i - 1];
        }
      }
    }
  }

  /** A key at or after the key of `from` whose midnight is before `to`. */
  predicate SeriesBound(from: int, to: int, key: int) {
    DateKey(from) <= key && KeyTime(key) < to
  }

  /** A step moves the key forward. */
  lemma StepAdvancesKey(t: int, grain: Grain)
    ensures DateKey(t) < DateKey(Step(t, grain))
  {
  }

  /** Consecutive keys are one step apart: a day, a week, or the month step. */
  lemma {:induction false} SeriesSteps(from: int, to: int, grain: Grain)
    decreases to - from
    ensures forall i :: 0 <= i < |Series(from, to, grain)| - 1 ==>
      Series(from, to, grain)[i + 1] == StepDay(Series(from, to, grain)[i], grain)
  {
    if from < to {
      var next := Step(from, grain);
      SeriesSteps(next, to, grain);
      SeriesStart(next, to, grain);
      SeriesUnfold(from, to, grain);
    }
  }

  /** The keys of the walk strictly increase. */
  lemma SeriesIncreasing(from: int, to: int, grain: Grain)
    ensures StrictlyIncreasing(Series(from, to, grain))
  {
    var s := Series(from, to, grain);
    SeriesSteps(from, to, grain);
    forall i, j | 0 <= i < j < |s|
      ensures s[i] < s[j]
    {
      ChainLess(s, i, j);
    }
  }

  /** Milliseconds in one step of the fixed-length grains. */
  function StepLength(grain: Grain): (w: int)
    requires grain != Month
    ensures w > 0
  {
    if grain == Day then 86400000 else 604800000
  }

  /** A day or week step adds its fixed length. */
  lemma FixedStep(t: int, grain: Grain)
    requires grain != Month
    ensures Step(t, grain) == t + StepLength(grain)
  {
  }

  /** Day and week walks take one key per started step length from `from`
      to `to`. */
  lemma {:induction false} SeriesFixedLength(from: int, to: int, grain: Grain)
    decreases to - from
    requires grain != Month
    ensures |Series(from, to, grain)| == (if from < to then (to - from - 1) / StepLength(grain) + 1 else 0)
  {
    if from < to {
      var w := StepLength(grain);
      FixedStep(from, grain);
      SeriesUnfold(from, to, grain);
      SeriesFixedLength(from + w, to, grain);
      if from + w < to {
        assert (to - from - 1) / w == (to - (from + w) - 1) / w + 1 by {
          DivShift(to - from - 1 - w, grain);
        }
      } else {
        assert (to - from - 1) / w == 0;
      }
    }
  }

  lemma DivShift(x: int, grain: Grain)
    requires grain != Month
    ensures (x + StepLength(grain)) / StepLength(grain) == x / StepLength(grain) + 1
  {
    if grain == Day {
      assert (x + 86400000) / 86400000 == x / 86400000 + 1;
    } else {
      assert (x + 604800000) / 604800000 == x / 604800000 + 1;
    }
  }

  /** For midnight instants, a day walk has one key per day of the window. */
  lemma SeriesDailyLength(from: int, to: int)
    requires TimeWithinDay(from) == 0 && TimeWithinDay(to) == 0
    ensures |Series(from, to, Day)| == (if from < to then DayNumber(to) - DayNumber(from) else 0)
  {
    SeriesFixedLength(from, to, Day);
    if from < to {
      var n := DayNumber(to) - DayNumber(from);
      assert to - from == 86400000 * n;
      assert (to - from - 1) / 86400000 == n - 1;
    }
  }

  // ---------------------------------------------------------------------------
  // The walk from a bucket midnight lists every bucket key before its end
  // ---------------------------------------------------------------------------

  /** A key is its own bucket at the day grain. */
  lemma DayBucketKey(key: int)
    ensures IsBucketKey(key, Day)
  {
    assert DayNumber(KeyTime(key)) == key;
  }

  /** Week bucket keys are exactly the Mondays. */
  lemma WeekBucketKeys(key: int)
    ensures IsBucketKey(key, Week) <==> WeekDay(key) == 1
  {
    assert DayNumber(KeyTime(key)) == key;
  }

  /** The step from a bucket key is again a bucket key. */
  lemma StepKeepsBucketKey(key: int, grain: Grain)
    requires IsBucketKey(key, grain)
    ensures IsBucketKey(StepDay(key, grain), grain)
  {
    match grain
    case Day => DayBucketKey(StepDay(key, Day));
    case Week =>
      WeekBucketKeys(key);
      WeekBucketKeys(key + 7);
    case Month =>
      MonthBucketKeys(key);
      MonthStepFromFirst(key);
      MonthBucketKeys(StepDay(key, Month));
  }

  /** No bucket key lies strictly between a bucket key and the next step. */
  lemma NoBucketKeyWithinStep(key: int, other: int, grain: Grain)
    requires IsBucketKey(key, grain) && key < other < StepDay(key, grain)
    ensures !IsBucketKey(other, grain)
  {
    match grain
    case Day =>
    case Week =>
      WeekBucketKeys(key);
      WeekBucketKeys(other);
      NoMondayWithinWeek(key, other);
    case Month =>
      MonthBucketKeys(key);
      MonthBucketKeys(other);
      StepDayMonthAhead(key);
      NoFirstWithinMonth(key, other);
  }

  /** The six days after a Monday are not Mondays. */
  lemma NoMondayWithinWeek(monday: int, day: int)
    requires WeekDay(monday) == 1 && monday < day < monday + 7
    ensures WeekDay(day) != 1
  {
    var e := (monday + 4) / 7;
    assert monday + 4 == 7 * e + 1;
    assert day + 4 == 7 * e + 1 + (day - monday);
  }

  /** The days after the first of a month and within that month are not firsts. */
  lemma NoFirstWithinMonth(first: int, day: int)
    requires CivilFromDays(first).day == 1
    requires first < day < first + DaysInMonth(CivilFromDays(first).year, CivilFromDays(first).month)
    ensures CivilFromDays(day).day != 1
  {
    var c := CivilFromDays(first);
    CivilFromDaysValid(first);
    DaysFromCivilInverse(first);
    NotFirstOfMonth(c.year, c.month, first, day);
  }

  lemma NotFirstOfMonth(y: int, m: int, first: int, day: int)
    requires 1 <= m <= 12 && DaysFromCivil(y, m, 1) == first && first < day < first + DaysInMonth(y, m)
    ensures CivilFromDays(day).day != 1
  {
    var d := 1 + (day - first);
    DaysFromCivilFromFirst(y, m, d);
    CivilFromDaysInverseOf(y, m, d);
  }

  /** The instant one step after a bucket midnight is the next key's midnight. */
  lemma StepOfKeyTime(key: int, grain: Grain)
    ensures Step(KeyTime(key), grain) == KeyTime(StepDay(key, grain))
  {
    assert DayNumber(KeyTime(key)) == key && TimeWithinDay(KeyTime(key)) == 0;
    MakeDateParts(StepDay(key, grain), 0);
  }

  /** The walk from a key's midnight lists that key, then walks on from the
      midnight of the key one step later. */
  lemma SeriesFromKey(key: int, end: int, grain: Grain)
    requires KeyTime(key) < end
    ensures KeyTime(key) < KeyTime(StepDay(key, grain))
    ensures Series(KeyTime(key), end, grain) == [key] + Series(KeyTime(StepDay(key, grain)), end, grain)
  {
    StepOfKeyTime(key, grain);
    SeriesUnfold(KeyTime(key), end, grain);
    assert DateKey(KeyTime(key)) == key;
  }

  /** Walking from a bucket midnight meets only bucket keys. */
  lemma {:induction false} SeriesBucketKeys(key: int, end: int, grain: Grain)
    decreases end - KeyTime(key)
    requires IsBucketKey(key, grain)
    ensures forall k :: k in Series(KeyTime(key), end, grain) ==> IsBucketKey(k, grain)
  {
    if KeyTime(key) < end {
      var next := StepDay(key, grain);
      SeriesFromKey(key, end, grain);
      StepKeepsBucketKey(key, grain);
      SeriesBucketKeys(next, end, grain);
      var s, rest := Series(KeyTime(key), end, grain), Series(KeyTime(next), end, grain);
      forall k | k in s
        ensures IsBucketKey(k, grain)
      {
        if k != key {
          assert k in rest;
        }
      }
    }
  }

  /** Walking from a bucket midnight meets every later bucket key whose
      midnight is before the end. */
  lemma {:induction false} SeriesFindsBucketKey(key: int, end: int, grain: Grain, k: int)
    decreases end - KeyTime(key)
    requires IsBucketKey(key, grain) && IsBucketKey(k, grain) && key <= k && KeyTime(k) < end
    ensures k in Series(KeyTime(key), end, grain)
  {
    assert KeyTime(key) <= KeyTime(k);
    SeriesFromKey(key, end, grain);
    if k != key {
      var next := StepDay(key, grain);
      if k < next {
        NoBucketKeyWithinStep(key, k, grain);
      }
      StepKeepsBucketKey(key, grain);
      SeriesFindsBucketKey(next, end, grain, k);
    }
  }
}
