/** Week numbering of votes (backend/src/app.ts, `getISOWeek` and the
    `(weekNumber, year)` pair the vote handler derives from `now`).

    Instants are milliseconds since the epoch and calendar days are day
    numbers: day 0 is 1970-01-01, a Thursday. The calendar is the
    proleptic Gregorian one. `getISOWeek` moves a date to the Thursday of
    its Monday-to-Sunday week and numbers the weeks of that Thursday's
    year from 1, which is the week calendar of ISO 8601 (section 3.2.2 of
    ISO 8601:2004). */
module IsoWeek {
  import opened Types

  const MS_PER_DAY := 86_400_000

  predicate IsLeapYear(y: int) {
    y % 4 == 0 && (y % 100 != 0 || y % 400 == 0)
  }

  function DaysInYear(y: int): int {
    if IsLeapYear(y) then 366 else 365
  }

  /** A calendar date as its year and its zero-based day of that year
      (1 January is ordinal 0). */
  datatype CalendarDay = CalendarDay(year: int, ordinal: int)

  predicate ValidDay(c: CalendarDay) {
    0 <= c.ordinal < DaysInYear(c.year)
  }

  /** The date `n` days after 1 January of year `y`; `n` may be negative
      or run past the end of the year, as with `Date.setDate`. */
  function DayInYear(y: int, n: int): (c: CalendarDay)
    ensures ValidDay(c)
    decreases if n < 0 then 1 else 0, if n < 0 then -n else n
  {
    if n < 0 then DayInYear(y - 1, n + DaysInYear(y - 1))
    else if n < DaysInYear(y) then CalendarDay(y, n)
    else DayInYear(y + 1, n - DaysInYear(y))
  }

  /** The calendar date of day number `day`. */
  function DateOf(day: int): CalendarDay {
    DayInYear(1970, day)
  }

  /** The date after `c`. */
  function NextDate(c: CalendarDay): CalendarDay {
    if c.ordinal + 1 < DaysInYear(c.year) then CalendarDay(c.year, c.ordinal + 1)
    else CalendarDay(c.year + 1, 0)
  }

  /** `Date.getDay()`: 0 is Sunday, 1 Monday, ..., 6 Saturday. */
  function Weekday(day: int): (w: int)
    ensures 0 <= w < 7
  {
    (day + 4) % 7
  }

  /** The day an instant falls on: `setHours(0, 0, 0, 0)`. */
  function DayOf(now: Millis): (d: int)
    ensures d * MS_PER_DAY <= now < (d + 1) * MS_PER_DAY
  {
    now / MS_PER_DAY
  }

  /** `d.setDate(d.getDate() + 4 - (d.getDay() || 7))`: the Thursday of the
      Monday-to-Sunday week that contains `day`. */
  function ThursdayOf(day: int): (t: int)
    ensures Weekday(t) == 4
    ensures t - 3 <= day <= t + 3
  {
    day + 4 - (if Weekday(day) == 0 then 7 else Weekday(day))
  }

  /** `Math.ceil(a / b)` for integers. */
  function CeilDiv(a: int, b: int): (q: int)
    requires b > 0
    ensures (q - 1) * b < a <= q * b
  {
    (a + b - 1) / b
  }

  /** `getISOWeek`: one plus the day of the year of the week's Thursday,
      divided by 7 and rounded up. */
  function WeekOfDay(day: int): (w: int)
    ensures 1 <= w <= 53
  {
    CeilDiv(DateOf(ThursdayOf(day)).ordinal + 1, 7)
  }

  /** `getISOWeek(now)`. */
  function GetISOWeek(now: Millis): (w: int)
    ensures 1 <= w <= 53
  {
    WeekOfDay(DayOf(now))
  }

  /** The `(year, weekNumber)` pair as backend/src/app.ts:104-106 computes
      it: the ISO week of `now` paired with the calendar year of `now`. */
  function WeekKeyAsWritten(now: Millis): (k: (int, int))
    ensures k.0 == DateOf(DayOf(now)).year
    ensures k.1 == WeekKey(now).1 && 1 <= k.1 <= 53
  {
    (DateOf(DayOf(now)).year, GetISOWeek(now))
  }

  /** The `(year, weekNumber)` pair of `day` with the year taken from the
      Thursday that the week number is counted in (the ISO week-numbering
      year). */
  function KeyOfDay(day: int): (k: (int, int))
    ensures 1 <= k.1 <= 53
  {
    (DateOf(ThursdayOf(day)).year, WeekOfDay(day))
  }

  /** The corrected `(year, weekNumber)` pair of an instant. */
  function WeekKey(now: Millis): (k: (int, int))
    ensures k.1 == GetISOWeek(now)
    ensures k.0 == DateOf(ThursdayOf(DayOf(now))).year
  {
    KeyOfDay(DayOf(now))
  }

  /** Reference definition of a calendar week: the Monday on or before
      `day`. */
  function MondayOf(day: int): int {
    day - (Weekday(day) + 6) % 7
  }

  // ----- the calendar -----

  /** Leap years among 1..y (for any y, with floor division). */
  function LeapYearsThrough(y: int): int {
    y / 4 - y / 100 + y / 400
  }

  /** The day number of 1 January of year `y`, in closed form. */
  function YearStart(y: int): int {
    365 * (y - 1970) + LeapYearsThrough(y - 1) - LeapYearsThrough(1969)
  }

  /** Floor division by 4, 100 and 400 steps up by one exactly at the
      multiples. */
  lemma QuarterStep(y: int)
    ensures y / 4 - (y - 1) / 4 == if y % 4 == 0 then 1 else 0
  {
    var q, r := (y - 1) / 4, (y - 1) % 4;
    assert y == 4 * q + r + 1;
    if r == 3 {
      assert y == 4 * (q + 1) + 0;
    }
  }

  lemma CenturyStep(y: int)
    ensures y / 100 - (y - 1) / 100 == if y % 100 == 0 then 1 else 0
  {
    var q, r := (y - 1) / 100, (y - 1) % 100;
    assert y == 100 * q + r + 1;
    if r == 99 {
      assert y == 100 * (q + 1) + 0;
    }
  }

  lemma QuadCenturyStep(y: int)
    ensures y / 400 - (y - 1) / 400 == if y % 400 == 0 then 1 else 0
  {
    var q, r := (y - 1) / 400, (y - 1) % 400;
    assert y == 400 * q + r + 1;
    if r == 399 {
      assert y == 400 * (q + 1) + 0;
    }
  }

  /** A multiple of 400 is a multiple of 100, and that of 4. */
  lemma DivisibilityChain(y: int)
    ensures y % 400 == 0 ==> y % 100 == 0
    ensures y % 100 == 0 ==> y % 4 == 0
  {
    var q4, r4 := y / 4, y % 4;
    var q100, r100 := y / 100, y % 100;
    var q400, r400 := y / 400, y % 400;
    assert y == 4 * q4 + r4 && 0 <= r4 < 4;
    assert y == 100 * q100 + r100 && 0 <= r100 < 100;
    assert y == 400 * q400 + r400 && 0 <= r400 < 400;
    if r400 == 0 {
      assert 100 * (4 * q400 - q100) == r100;
    }
    if r100 == 0 {
      assert 4 * (25 * q100 - q4) == r4;
    }
  }

  /** The count of leap years rises by one exactly at a leap year. */
  lemma LeapStep(y: int)
    ensures LeapYearsThrough(y) - LeapYearsThrough(y - 1) == if IsLeapYear(y) then 1 else 0
  {
    QuarterStep(y);
    CenturyStep(y);
    QuadCenturyStep(y);
    DivisibilityChain(y);
  }

  lemma YearStartStep(y: int)
    ensures YearStart(y + 1) == YearStart(y) + DaysInYear(y)
  {
    LeapStep(y);
  }

  /** The number of days from 1 January of `z` to 1 January of `y`,
      counted year by year (negative when `y` comes first). */
  function DaysBetween(z: int, y: int): (d: int)
    ensures z <= y ==> d >= 0
    ensures z < y ==> d >= DaysInYear(z)
    ensures y < z ==> d <= -DaysInYear(y)
    decreases if z < y then y - z else z - y
  {
    if z < y then DaysInYear(z) + DaysBetween(z + 1, y)
    else if y < z then DaysBetween(z - 1, y) - DaysInYear(z - 1)
    else 0
  }

  /** The closed form counts the same days as the year-by-year sum. */
  lemma {:induction false} YearStartGap(z: int, y: int)
    ensures YearStart(y) - YearStart(z) == DaysBetween(z, y)
    decreases if z < y then y - z else z - y
  {
    if z < y {
      YearStartStep(z);
      YearStartGap(z + 1, y);
    } else if y < z {
      YearStartStep(z - 1);
      YearStartGap(z - 1, y);
    }
  }

  /** Counting from any year `z`, the day `DaysBetween(z, y) + o` is
      ordinal `o` of year `y`. */
  lemma {:induction false} DayInYearAcross(z: int, y: int, o: int)
    requires 0 <= o < DaysInYear(y)
    ensures DayInYear(z, DaysBetween(z, y) + o) == CalendarDay(y, o)
    decreases if z < y then y - z else z - y
  {
    if z < y {
      DayInYearAcross(z + 1, y, o);
    } else if y < z {
      DayInYearAcross(z - 1, y, o);
    }
  }

  /** `YearStart` agrees with `DateOf`: its day is 1 January of its year. */
  lemma DateOfYearStart(y: int, o: int)
    requires 0 <= o < DaysInYear(y)
    ensures DateOf(YearStart(y) + o) == CalendarDay(y, o)
  {
    YearStartGap(1970, y);
    DayInYearAcross(1970, y, o);
  }

  lemma {:induction false} DayInYearNext(y: int, n: int)
    ensures DayInYear(y, n + 1) == NextDate(DayInYear(y, n))
    decreases if n < 0 then 1 else 0, if n < 0 then -n else n
  {
    if n < 0 {
      if n + 1 < 0 {
        DayInYearNext(y - 1, n + DaysInYear(y - 1));
      }
    } else if n >= DaysInYear(y) {
      DayInYearNext(y + 1, n - DaysInYear(y));
    }
  }

  /** Consecutive day numbers are consecutive dates. */
  lemma DateOfNext(day: int)
    ensures DateOf(day + 1) == NextDate(DateOf(day))
  {
    DayInYearNext(1970, day);
  }

  /** `k` days after `t` is either `k` ordinals further in the same year or
      in a later year. */
  lemma {:induction false} DateAdvance(t: int, k: nat)
    ensures var c, c' := DateOf(t), DateOf(t + k);
      (c'.year == c.year && c'.ordinal == c.ordinal + k) || c'.year > c.year
  {
    if k > 0 {
      DateAdvance(t, k - 1);
      DateOfNext(t + k - 1);
    }
  }

  // ----- properties of the week number -----

  /** The Thursday is three days after the Monday of the same week. */
  lemma ThursdayIsMondayPlusThree(day: int)
    ensures ThursdayOf(day) == MondayOf(day) + 3
  {
  }

  /** Two Mondays lie a whole number of weeks apart. */
  lemma MondaysApart(a: int, b: int)
    requires MondayOf(a) < MondayOf(b)
    ensures MondayOf(a) + 7 <= MondayOf(b)
  {
    var ma, mb := MondayOf(a), MondayOf(b);
    assert Weekday(ma) == 1 && Weekday(mb) == 1;
    assert (mb - ma) % 7 == 0;
  }

  /** Two days get the same corrected key exactly when they lie in the same
      Monday-to-Sunday week. */
  lemma KeyOfDayIffSameWeek(a: int, b: int)
    ensures KeyOfDay(a) == KeyOfDay(b) <==> MondayOf(a) == MondayOf(b)
  {
    ThursdayIsMondayPlusThree(a);
    ThursdayIsMondayPlusThree(b);
    if MondayOf(a) < MondayOf(b) {
      MondaysApart(a, b);
      KeysOfLaterWeekDiffer(ThursdayOf(a), ThursdayOf(b));
    } else if MondayOf(b) < MondayOf(a) {
      MondaysApart(b, a);
      KeysOfLaterWeekDiffer(ThursdayOf(b), ThursdayOf(a));
    }
  }

  /** Thursdays a week or more apart get different `(year, week)` pairs. */
  lemma KeysOfLaterWeekDiffer(t: int, t': int)
    requires t + 7 <= t'
    ensures DateOf(t).year != DateOf(t').year
         || CeilDiv(DateOf(t).ordinal + 1, 7) != CeilDiv(DateOf(t').ordinal + 1, 7)
  {
    DateAdvance(t, t' - t);
  }

  /** The day after `day` gets the same corrected key unless `day` is a
      Sunday, the last day of an ISO week. */
  lemma WeekKeyChangesOnlyOnMonday(day: int)
    ensures KeyOfDay(day + 1) == KeyOfDay(day) <==> Weekday(day) != 0
  {
    KeyOfDayIffSameWeek(day, day + 1);
  }

  /** `getISOWeek` depends on the calendar day only, not on the time of
      day. */
  lemma TimeOfDayIgnored(day: int, t: int)
    requires 0 <= t < MS_PER_DAY
    ensures DayOf(day * MS_PER_DAY + t) == day
    ensures GetISOWeek(day * MS_PER_DAY + t) == GetISOWeek(day * MS_PER_DAY)
    ensures WeekKey(day * MS_PER_DAY + t) == WeekKey(day * MS_PER_DAY)
  {
  }

  // ----- the key as written -----

  /** The dates around the turns of 2022/2023 and 2024/2025 that the two
      counterexamples below use. */
  lemma DatesOf2023()
    ensures DateOf(19355) == CalendarDay(2022, 362)
    ensures DateOf(19358) == CalendarDay(2023, 0)
    ensures DateOf(19719) == CalendarDay(2023, 361)
    ensures DateOf(19722) == CalendarDay(2023, 364)
  {
    assert YearStart(2022) == 18993;
    assert YearStart(2023) == 19358;
    DateOfYearStart(2022, 362);
    DateOfYearStart(2023, 0);
    DateOfYearStart(2023, 361);
    DateOfYearStart(2023, 364);
  }

  lemma DatesOf2025()
    ensures DateOf(20088) == CalendarDay(2024, 365)
    ensures DateOf(20089) == CalendarDay(2025, 0)
    ensures DateOf(20090) == CalendarDay(2025, 1)
  {
    assert YearStart(2024) == 19723;
    assert YearStart(2025) == 20089;
    DateOfYearStart(2024, 365);
    DateOfYearStart(2025, 0);
    DateOfYearStart(2025, 1);
  }

  /** Sunday 2023-01-01 (day 19358) and Sunday 2023-12-31 (day 19722) lie 52
      weeks apart, yet the handler as written stores the same pair
      (2023, 52) for both: the first one's week 52 is counted in 2022. */
  lemma KeysOf2023()
    ensures DateOf(19358).year == 2023 && KeyOfDay(19358) == (2022, 52)
    ensures DateOf(19722).year == 2023 && KeyOfDay(19722) == (2023, 52)
  {
    assert ThursdayOf(19358) == 19355 && ThursdayOf(19722) == 19719;
    DatesOf2023();
  }

  lemma AsWrittenKeyCollides()
    ensures WeekKeyAsWritten(19358 * MS_PER_DAY) == (2023, 52)
    ensures WeekKeyAsWritten(19722 * MS_PER_DAY) == (2023, 52)
    ensures MondayOf(19722) == MondayOf(19358) + 52 * 7
    ensures WeekKey(19358 * MS_PER_DAY) == (2022, 52)
    ensures WeekKey(19722 * MS_PER_DAY) == (2023, 52)
  {
    var a, b := 19358 * MS_PER_DAY, 19722 * MS_PER_DAY;
    assert DayOf(a) == 19358 && DayOf(b) == 19722;
    KeysOf2023();
    assert WeekKey(a) == KeyOfDay(19358) && WeekKey(b) == KeyOfDay(19722);
  }

  lemma KeysOf2025()
    ensures DateOf(20088).year == 2024 && KeyOfDay(20088) == (2025, 1)
    ensures DateOf(20089).year == 2025 && KeyOfDay(20089) == (2025, 1)
    ensures MondayOf(20088) == MondayOf(20089)
  {
    assert Weekday(20088) == 2 && Weekday(20089) == 3;
    assert MondayOf(20088) == MondayOf(20089) == 20087;
    assert ThursdayOf(20088) == ThursdayOf(20089) == 20090;
    DatesOf2025();
  }

  /** Tuesday 2024-12-31 (day 20088) and Wednesday 2025-01-01 (day 20089)
      lie in one ISO week (2025, week 1), yet the handler as written stores
      (2024, 1) for the first and (2025, 1) for the second. */
  lemma AsWrittenKeySplitsWeek()
    ensures MondayOf(20088) == MondayOf(20089)
    ensures WeekKeyAsWritten(20088 * MS_PER_DAY) == (2024, 1)
    ensures WeekKeyAsWritten(20089 * MS_PER_DAY) == (2025, 1)
    ensures WeekKey(20088 * MS_PER_DAY) == WeekKey(20089 * MS_PER_DAY) == (2025, 1)
  {
    var a, b := 20088 * MS_PER_DAY, 20089 * MS_PER_DAY;
    assert DayOf(a) == 20088 && DayOf(b) == 20089;
    KeysOf2025();
    assert WeekKey(a) == KeyOfDay(20088) && WeekKey(b) == KeyOfDay(20089);
    assert GetISOWeek(a) == KeyOfDay(20088).1 && GetISOWeek(b) == KeyOfDay(20089).1;
  }
}
