/**
 The proleptic Gregorian calendar as Python's `datetime` module computes it:
 leap years, month lengths, the day ordinal (0001-01-01 is day 1, a Monday),
 the weekday of a date (Monday = 0) and the ISO 8601 week date
 (`date.isocalendar()`), whose week 1 is the week holding the year's first
 Thursday and whose weeks start on Monday.
 */
module Gregorian {

  const MIN_YEAR := 1
  const MAX_YEAR := 9999
  const THURSDAY := 3

  predicate IsLeapYear(y: int) {
    y % 4 == 0 && (y % 100 != 0 || y % 400 == 0)
  }

  function DaysInYear(y: int): int {
    if IsLeapYear(y) then 366 else 365
  }

  /** Length of month m of year y; only February depends on the year. */
  function DaysInMonth(y: int, m: int): (n: int)
    requires 1 <= m <= 12
    ensures 28 <= n <= 31
    ensures n == 29 <==> m == 2 && IsLeapYear(y)
    ensures n == 28 <==> m == 2 && !IsLeapYear(y)
  {
    if m == 2 then (if IsLeapYear(y) then 29 else 28)
    else if m == 4 || m == 6 || m == 9 || m == 11 then 30
    else 31
  }

  /** A calendar date, as `datetime.date` holds it. */
  datatype Date = Date(year: int, month: int, day: int)

  /** A date that `datetime.date(y, m, d)` accepts. */
  predicate ValidDate(y: int, m: int, d: int) {
    MIN_YEAR <= y <= MAX_YEAR && 1 <= m <= 12 && 1 <= d <= DaysInMonth(y, m)
  }

  /**
   Days before January 1 of year y, counted from 0001-01-01: the lengths of
   the years 1 .. y-1 added up (for year 0 and before, taken away).
   */
  function DaysBeforeYear(y: int): int
    decreases if y >= 1 then y - 1 else 1 - y
  {
    if y == 1 then 0
    else if y > 1 then DaysBeforeYear(y - 1) + DaysInYear(y - 1)
    else DaysBeforeYear(y + 1) - DaysInYear(y)
  }

  /** The library's closed form of DaysBeforeYear, with floor division. */
  function DaysBeforeYearClosedForm(y: int): int {
    var p := y - 1;
    p * 365 + p / 4 - p / 100 + p / 400
  }

  /**
   Days in year y before the first of month m: the lengths of months 1 .. m-1
   added up, which is how the library builds its cumulative month table.
   */
  function DaysBeforeMonth(y: int, m: int): int
    requires 1 <= m <= 12
  {
    if m == 1 then 0 else DaysBeforeMonth(y, m - 1) + DaysInMonth(y, m - 1)
  }

  /** The day ordinal: 0001-01-01 is 1. */
  function Ordinal(y: int, m: int, d: int): int
    requires 1 <= m <= 12
  {
    DaysBeforeYear(y) + DaysBeforeMonth(y, m) + d
  }

  /** The weekday, Monday = 0 .. Sunday = 6 (`date.weekday()`). */
  function Weekday(y: int, m: int, d: int): (w: int)
    requires 1 <= m <= 12
    ensures 0 <= w < 7
    ensures (Ordinal(y, m, d) - w - 1) % 7 == 0
  {
    (Ordinal(y, m, d) + 6) % 7
  }

  /** A day ordinal that falls on a Monday (ordinal 1 is a Monday). */
  predicate IsMonday(ord: int) {
    (ord + 6) % 7 == 0
  }

  /** The ordinal of January 1 of year y, that is Ordinal(y, 1, 1). */
  function JanuaryFirst(y: int): int {
    DaysBeforeYear(y) + 1
  }

  /**
   The Monday that starts ISO week 1 of the year whose January 1 has ordinal
   firstDay: the Monday of that week, or of the next one when January 1 falls
   after a Thursday.
   */
  function Week1MondayFrom(firstDay: int): int {
    var firstWeekday := (firstDay + 6) % 7;
    var week1Monday := firstDay - firstWeekday;
    if firstWeekday > THURSDAY then week1Monday + 7 else week1Monday
  }

  /** The ordinal of the Monday that starts ISO week 1 of year y: its Thursday is in January 1 .. 7. */
  function IsoWeek1Monday(y: int): int {
    Week1MondayFrom(JanuaryFirst(y))
  }

  /** The week-1 Monday of a year is a Monday, and its Thursday falls in January 1 .. 7. */
  lemma IsoWeek1MondayBounds(y: int)
    ensures IsMonday(IsoWeek1Monday(y))
    ensures JanuaryFirst(y) <= IsoWeek1Monday(y) + THURSDAY < JanuaryFirst(y) + 7
  {
  }

  /** The ISO calendar date of a day: ISO year, week (1-based), weekday (Monday = 1). */
  datatype IsoDate = IsoDate(isoYear: int, week: int, weekday: int)

  /**
   The weeks of ISO year Y run from IsoWeek1Monday(Y) up to, not including,
   IsoWeek1Monday(Y + 1); the date is then the weekday-th day of the week-th week.
   */
  ghost predicate IsoDecomposition(ord: int, iso: IsoDate) {
    && IsoWeek1Monday(iso.isoYear) <= ord < IsoWeek1Monday(iso.isoYear + 1)
    && 1 <= iso.weekday <= 7
    && ord == IsoWeek1Monday(iso.isoYear) + 7 * (iso.week - 1) + (iso.weekday - 1)
  }

  /** `date.isocalendar()` of a valid date (that it is the ISO decomposition is IsoCalendarDecomposes). */
  function IsoCalendar(y: int, m: int, d: int): (r: IsoDate)
    requires ValidDate(y, m, d)
    ensures y - 1 <= r.isoYear <= y + 1
    ensures 1 <= r.week <= 53
    ensures r.weekday == Weekday(y, m, d) + 1
  {
    OrdinalWithinYear(y, m, d);
    IsoFromOrdinalDecomposes(y, Ordinal(y, m, d));
    IsoFromOrdinal(y, Ordinal(y, m, d))
  }

  /** `IsoCalendar` places the day in its ISO year, week and weekday. */
  lemma IsoCalendarDecomposes(y: int, m: int, d: int)
    requires ValidDate(y, m, d)
    ensures IsoDecomposition(Ordinal(y, m, d), IsoCalendar(y, m, d))
  {
    OrdinalWithinYear(y, m, d);
    IsoFromOrdinalDecomposes(y, Ordinal(y, m, d));
  }

  /**
   The ISO date of the day with ordinal `ord` in year y, from the week-1
   Mondays of the previous, the same and the next year.
   */
  function IsoFromOrdinal(y: int, ord: int): IsoDate {
    IsoCase(y, ord, IsoWeek1Monday(y - 1), IsoWeek1Monday(y), IsoWeek1Monday(y + 1))
  }

  /**
   The library's case analysis: a day before week 1 belongs to the last week of
   the previous ISO year, and a day of week 53 or later on or after the next
   year's week-1 Monday belongs to week 1 of the next ISO year.
   */
  function IsoCase(y: int, ord: int, previous: int, week1Monday: int, next: int): IsoDate {
    var week, day := (ord - week1Monday) / 7, (ord - week1Monday) % 7;
    if week < 0 then
      IsoDate(y - 1, (ord - previous) / 7 + 1, (ord - previous) % 7 + 1)
    else if week >= 52 && ord >= next then
      IsoDate(y + 1, 1, day + 1)
    else
      IsoDate(y, week + 1, day + 1)
  }

  /** `iso` places day `ord` in the ISO year that runs from `start` up to `end`. */
  predicate WeekOf(ord: int, iso: IsoDate, start: int, end: int) {
    && start <= ord < end
    && 1 <= iso.week <= 53
    && 1 <= iso.weekday <= 7
    && ord == start + 7 * (iso.week - 1) + (iso.weekday - 1)
  }

  /**
   IsoCase in integers, for consecutive week-1 Mondays a < b < c < e of years
   whose January 1 are fa < fb < fc: each branch lands in the right ISO year.
   */
  lemma IsoCaseDecomposes(y: int, t: int, a: int, b: int, c: int, e: int, fa: int, fb: int, fc: int)
    requires IsMonday(a) && IsMonday(b) && IsMonday(c)
    requires b - a == 364 || b - a == 371
    requires c - b == 364 || c - b == 371
    requires e - c == 364 || e - c == 371
    requires fa <= a + THURSDAY < fa + 7 && fb <= b + THURSDAY < fb + 7 && fc <= c + THURSDAY < fc + 7
    requires fb - fa >= 365 && fb <= t < fc
    ensures var r := IsoCase(y, t, a, b, c);
      && r.weekday == (t + 6) % 7 + 1
      && ((r.isoYear == y - 1 && WeekOf(t, r, a, b))
       || (r.isoYear == y && WeekOf(t, r, b, c))
       || (r.isoYear == y + 1 && WeekOf(t, r, c, e)))
  {
    var week := (t - b) / 7;
    if week < 0 {
      WeekWithin(t, a, b);
    } else if week >= 52 && t >= c {
      WeekWithin(t, b, c);
    } else {
      WeekWithin(t, b, c);
    }
  }

  /**
   A day t in [start, end), for Mondays start and end at most 53 weeks apart,
   is day (t - start) % 7 of week (t - start) / 7, which matches its weekday.
   */
  lemma WeekWithin(t: int, start: int, end: int)
    requires IsMonday(start) && IsMonday(end)
    requires start <= t && end - start <= 371
    ensures t == start + 7 * ((t - start) / 7) + (t - start) % 7
    ensures 0 <= (t - start) % 7 < 7
    ensures (t - start) % 7 == (t + 6) % 7
    ensures t < end ==> (t - start) / 7 <= 52
    ensures end == start + 7 * ((end - start) / 7)
  {
    var k := (start + 6) / 7;
    assert start == 7 * k - 6;
    var j := (end + 6) / 7;
    assert end == 7 * j - 6;
  }

  /** IsoFromOrdinal yields the ISO decomposition of a day of year y. */
  lemma IsoFromOrdinalDecomposes(y: int, ord: int)
    requires JanuaryFirst(y) <= ord < JanuaryFirst(y + 1)
    ensures IsoDecomposition(ord, IsoFromOrdinal(y, ord))
    ensures y - 1 <= IsoFromOrdinal(y, ord).isoYear <= y + 1
    ensures 1 <= IsoFromOrdinal(y, ord).week <= 53
    ensures IsoFromOrdinal(y, ord).weekday == (ord + 6) % 7 + 1
  {
    var previous, week1Monday, next, afterNext :=
      IsoWeek1Monday(y - 1), IsoWeek1Monday(y), IsoWeek1Monday(y + 1), IsoWeek1Monday(y + 2);
    IsoWeek1MondayBounds(y - 1);
    IsoWeek1MondayBounds(y);
    IsoWeek1MondayBounds(y + 1);
    Week1MondayStep(y - 1);
    Week1MondayStep(y);
    Week1MondayStep(y + 1);
    DaysBeforeYearStep(y - 1);
    IsoCaseDecomposes(y, ord, previous, week1Monday, next, afterNext,
                      JanuaryFirst(y - 1), JanuaryFirst(y), JanuaryFirst(y + 1));
    var r := IsoFromOrdinal(y, ord);
    if r.isoYear == y - 1 {
      assert WeekOf(ord, r, previous, week1Monday);
    } else if r.isoYear == y {
      assert WeekOf(ord, r, week1Monday, next);
    } else {
      assert WeekOf(ord, r, next, afterNext);
    }
  }

  // ---------------------------------------------------------------------
  // Lemmas

  /** Consecutive January 1s are a year length apart. */
  lemma DaysBeforeYearStep(y: int)
    ensures DaysBeforeYear(y + 1) == DaysBeforeYear(y) + DaysInYear(y)
  {
  }

  /** The closed form also advances by the length of the year. */
  lemma ClosedFormStep(y: int)
    ensures DaysBeforeYearClosedForm(y + 1) == DaysBeforeYearClosedForm(y) + DaysInYear(y)
  {
    FloorStep(y, 4);
    FloorStep(y, 100);
    FloorStep(y, 400);
  }

  /** Floor division by k steps up by one exactly at the multiples of k. */
  lemma FloorStep(a: int, k: int)
    requires k == 4 || k == 100 || k == 400
    ensures a / k - (a - 1) / k == if a % k == 0 then 1 else 0
  {
    var q, r := a / k, a % k;
    assert a == k * q + r && 0 <= r < k;
    if r == 0 {
      assert a - 1 == k * (q - 1) + (k - 1);
    } else {
      assert a - 1 == k * q + (r - 1);
    }
  }

  /** Counting the years one by one agrees with the library's closed form, for every year. */
  lemma {:induction false} DaysBeforeYearIsClosedForm(y: int)
    ensures DaysBeforeYear(y) == DaysBeforeYearClosedForm(y)
    decreases if y >= 1 then y - 1 else 1 - y
  {
    if y > 1 {
      DaysBeforeYearIsClosedForm(y - 1);
      ClosedFormStep(y - 1);
    } else if y < 1 {
      DaysBeforeYearIsClosedForm(y + 1);
      ClosedFormStep(y);
    }
  }

  /**
   The cumulative month lengths are the library's table
   0, 31, 59, .., 334, plus the leap day from March on.
   */
  lemma {:induction false} DaysBeforeMonthTable(y: int, m: int)
    requires 1 <= m <= 12
    ensures DaysBeforeMonth(y, m) ==
      (match m
       case 1 => 0 case 2 => 31 case 3 => 59 case 4 => 90 case 5 => 120 case 6 => 151
       case 7 => 181 case 8 => 212 case 9 => 243 case 10 => 273 case 11 => 304 case _ => 334)
      + (if m > 2 && IsLeapYear(y) then 1 else 0)
  {
    if m > 1 {
      DaysBeforeMonthTable(y, m - 1);
    }
  }

  /** A valid date lies between January 1 and December 31 of its year. */
  lemma OrdinalWithinYear(y: int, m: int, d: int)
    requires ValidDate(y, m, d)
    ensures JanuaryFirst(y) <= Ordinal(y, m, d) < JanuaryFirst(y + 1)
  {
    DaysBeforeYearStep(y);
    DaysBeforeMonthTable(y, m);
    assert DaysBeforeMonth(y, m) + DaysInMonth(y, m) <= DaysInYear(y);
  }

  /** Consecutive ISO years are 52 or 53 weeks long. */
  lemma Week1MondayStep(y: int)
    ensures IsoWeek1Monday(y + 1) - IsoWeek1Monday(y) == 364
         || IsoWeek1Monday(y + 1) - IsoWeek1Monday(y) == 371
  {
    DaysBeforeYearStep(y);
    IsoWeek1MondayBounds(y);
    IsoWeek1MondayBounds(y + 1);
    MondayGap(IsoWeek1Monday(y), IsoWeek1Monday(y + 1), JanuaryFirst(y), JanuaryFirst(y + 1));
  }

  /** Two week-1 Mondays of years 365 or 366 days apart are 52 or 53 weeks apart. */
  lemma MondayGap(a: int, b: int, fa: int, fb: int)
    requires IsMonday(a) && IsMonday(b)
    requires fa <= a + THURSDAY < fa + 7 && fb <= b + THURSDAY < fb + 7
    requires fb - fa == 365 || fb - fa == 366
    ensures b - a == 364 || b - a == 371
  {
    var qa, qb := (a + 6) / 7, (b + 6) / 7;
    assert a == 7 * qa - 6;
    assert b == 7 * qb - 6;
  }

  /** Week-1 Mondays strictly increase with the year. */
  lemma {:induction false} Week1MondayMonotone(a: int, b: int)
    requires a < b
    ensures IsoWeek1Monday(a + 1) <= IsoWeek1Monday(b)
    decreases b - a
  {
    if a + 1 < b {
      Week1MondayMonotone(a + 1, b);
      Week1MondayStep(a + 1);
    }
  }

  /** A day belongs to exactly one ISO year. */
  lemma IsoYearUnique(ord: int, y1: int, y2: int)
    requires IsoWeek1Monday(y1) <= ord < IsoWeek1Monday(y1 + 1)
    requires IsoWeek1Monday(y2) <= ord < IsoWeek1Monday(y2 + 1)
    ensures y1 == y2
  {
    if y1 < y2 {
      Week1MondayMonotone(y1, y2);
    } else if y2 < y1 {
      Week1MondayMonotone(y2, y1);
    }
  }

  /** The ISO decomposition of a day is unique, so `IsoCalendar` is the ISO 8601 week date. */
  lemma IsoCalendarUnique(y: int, m: int, d: int, iso: IsoDate)
    requires ValidDate(y, m, d)
    requires IsoDecomposition(Ordinal(y, m, d), iso)
    ensures iso == IsoCalendar(y, m, d)
  {
    IsoCalendarDecomposes(y, m, d);
    IsoDecompositionUnique(Ordinal(y, m, d), iso, IsoCalendar(y, m, d));
  }

  /** A day ordinal has at most one ISO decomposition. */
  lemma IsoDecompositionUnique(ord: int, iso1: IsoDate, iso2: IsoDate)
    requires IsoDecomposition(ord, iso1) && IsoDecomposition(ord, iso2)
    ensures iso1 == iso2
  {
    IsoYearUnique(ord, iso1.isoYear, iso2.isoYear);
    var offset := ord - IsoWeek1Monday(iso1.isoYear);
    WeekSplitUnique(offset, iso1.week - 1, iso1.weekday - 1, iso2.week - 1, iso2.weekday - 1);
  }

  /** Splitting a day offset into whole weeks and a weekday is unique. */
  lemma WeekSplitUnique(offset: int, w1: int, d1: int, w2: int, d2: int)
    requires offset == 7 * w1 + d1 && 0 <= d1 < 7
    requires offset == 7 * w2 + d2 && 0 <= d2 < 7
    ensures w1 == w2 && d1 == d2
  {
  }

  /**
   Two days of the same Monday-to-Sunday week (ordinals o and o' with
   (o - 1) / 7 == (o' - 1) / 7, since ordinal 1 is a Monday) have the same ISO week.
   */
  lemma SameWeekSameIsoWeek(y: int, m: int, d: int, y': int, m': int, d': int)
    requires ValidDate(y, m, d) && ValidDate(y', m', d')
    requires (Ordinal(y, m, d) - 1) / 7 == (Ordinal(y', m', d') - 1) / 7
    ensures IsoCalendar(y, m, d).isoYear == IsoCalendar(y', m', d').isoYear
    ensures IsoCalendar(y, m, d).week == IsoCalendar(y', m', d').week
  {
    IsoCalendarDecomposes(y, m, d);
    IsoCalendarDecomposes(y', m', d');
    SameWeekSameDecomposition(Ordinal(y, m, d), Ordinal(y', m', d'),
                              IsoCalendar(y, m, d), IsoCalendar(y', m', d'));
  }

  /** SameWeekSameIsoWeek on day ordinals. */
  lemma SameWeekSameDecomposition(o: int, o': int, r: IsoDate, r': IsoDate)
    requires IsoDecomposition(o, r) && IsoDecomposition(o', r')
    requires (o - 1) / 7 == (o' - 1) / 7
    ensures r.isoYear == r'.isoYear && r.week == r'.week
  {
    var start, end := IsoWeek1Monday(r.isoYear), IsoWeek1Monday(r.isoYear + 1);
    IsoWeek1MondayBounds(r.isoYear);
    IsoWeek1MondayBounds(r.isoYear + 1);
    SameWeekArithmetic(o, o', start, end, r.week, r.weekday);
    IsoYearUnique(o', r.isoYear, r'.isoYear);
    WeekSplitUnique(o' - start, r.week - 1, o' - start - 7 * (r.week - 1), r'.week - 1, r'.weekday - 1);
  }

  /** A Monday-aligned week that starts inside an ISO year lies inside it, as the same week. */
  lemma SameWeekArithmetic(o: int, o': int, start: int, end: int, week: int, weekday: int)
    requires IsMonday(start) && IsMonday(end)
    requires start <= o < end && 1 <= weekday <= 7
    requires o == start + 7 * (week - 1) + (weekday - 1)
    requires (o - 1) / 7 == (o' - 1) / 7
    ensures start <= o' < end
    ensures 0 <= o' - start - 7 * (week - 1) < 7
  {
    var k, j, q := (start + 6) / 7, (end + 6) / 7, (o - 1) / 7;
    assert start == 7 * k - 6 && end == 7 * j - 6;
    assert o - 1 == 7 * q + (o - 1) % 7 && o' - 1 == 7 * q + (o' - 1) % 7;
    WeekSplitUnique(o - start, q - k + 1, (o - 1) % 7, week - 1, weekday - 1);
  }

  /** 2024-02-01 is a Thursday in ISO week 5 of 2024. */
  lemma February2024Week()
    ensures Weekday(2024, 2, 1) == THURSDAY
    ensures IsoCalendar(2024, 2, 1) == IsoDate(2024, 5, 4)
  {
    DaysBeforeYearIsClosedForm(2023);
    DaysBeforeYearIsClosedForm(2024);
    DaysBeforeYearIsClosedForm(2025);
    assert Ordinal(2024, 1, 1) == 738886;
    assert IsoWeek1Monday(2024) == 738886;
  }
}
