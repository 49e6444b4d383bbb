/**
 The month grid of `calendar.Calendar(firstweekday=0).monthdayscalendar(y, m)`:
 the month's days laid out in Monday-first weeks of seven, with 0 in the
 cells before day 1 and after the last day.
 */
module Grid {
  import opened Gregorian

  /** `[0] * k`. */
  function Zeros(k: nat): (s: seq<int>)
    ensures |s| == k && forall i :: 0 <= i < k ==> s[i] == 0
  {
    seq(k, _ => 0)
  }

  /** `range(1, n + 1)`. */
  function DaysUpTo(n: nat): (s: seq<int>)
    ensures |s| == n && forall i :: 0 <= i < n ==> s[i] == i + 1
  {
    seq(n, i => i + 1)
  }

  /**
   `itermonthdays(y, m)` with Monday first: one 0 per weekday before day 1,
   the days 1 .. N, then 0s up to the end of the last week.
   */
  function MonthDays(y: int, m: int): seq<int>
    requires 1 <= m <= 12
  {
    var before := Weekday(y, m, 1);
    var n := DaysInMonth(y, m);
    Zeros(before) + DaysUpTo(n) + Zeros((-before - n) % 7)
  }

  /** `[days[i:i + 7] for i in range(0, len(days), 7)]`. */
  function Weeks(days: seq<int>): seq<seq<int>>
    decreases |days|
  {
    if days == [] then []
    else if |days| <= 7 then [days]
    else [days[..7]] + Weeks(days[7..])
  }

  /**
   `monthdayscalendar(y, m)`: 4 to 6 rows of seven cells, each 0 or a day
   of the month (where each day goes is MonthLayout).
   */
  function MonthDaysCalendar(y: int, m: int): (cal: seq<seq<int>>)
    requires 1 <= m <= 12
    ensures |cal| == RowCount(y, m)
    ensures forall r :: 0 <= r < |cal| ==> |cal[r]| == 7
    ensures forall r, c :: 0 <= r < |cal| && 0 <= c < 7 ==> 0 <= cal[r][c] <= DaysInMonth(y, m)
  {
    MonthDaysCells(y, m);
    WeeksCells(MonthDays(y, m));
    Weeks(MonthDays(y, m))
  }

  /**
   The Monday-first layout: the k-th cell (counted row by row) holds day
   k - off + 1 when that is a day of the month and 0 otherwise, where off is
   the weekday of day 1.
   */
  lemma MonthLayout(y: int, m: int)
    requires 1 <= m <= 12
    ensures forall r, c :: 0 <= r < RowCount(y, m) && 0 <= c < 7 ==>
      MonthDaysCalendar(y, m)[r][c] == CellDay(Weekday(y, m, 1), DaysInMonth(y, m), 7 * r + c)
  {
    var days := MonthDays(y, m);
    MonthDaysCells(y, m);
    WeeksCells(days);
    assert MonthDaysCalendar(y, m) == Weeks(days);
    forall r, c | 0 <= r < RowCount(y, m) && 0 <= c < 7
      ensures MonthDaysCalendar(y, m)[r][c] == CellDay(Weekday(y, m, 1), DaysInMonth(y, m), 7 * r + c)
    {
      assert Weeks(days)[r][c] == days[7 * r + c];
    }
  }

  /** The number of week rows of a month: ceil((weekday of day 1 + N) / 7). */
  function RowCount(y: int, m: int): (rows: int)
    requires 1 <= m <= 12
    ensures 4 <= rows <= 6
  {
    (Weekday(y, m, 1) + DaysInMonth(y, m) + 6) / 7
  }

  /** What the k-th cell (counted row by row) of a month holds whose day 1 is in column `off`. */
  function CellDay(off: int, n: int, k: int): int {
    if off <= k < off + n then k - off + 1 else 0
  }

  /** Chunking a whole number of weeks keeps every cell in place. */
  lemma {:induction false} WeeksCells(days: seq<int>)
    requires |days| % 7 == 0
    ensures |Weeks(days)| == |days| / 7
    ensures forall r :: 0 <= r < |Weeks(days)| ==> |Weeks(days)[r]| == 7
    ensures forall r, c :: 0 <= r < |Weeks(days)| && 0 <= c < 7 ==> Weeks(days)[r][c] == days[7 * r + c]
    decreases |days|
  {
    if |days| > 7 {
      var tail := days[7..];
      WeeksCells(tail);
      assert Weeks(days) == [days[..7]] + Weeks(tail);
      forall r, c | 1 <= r < |Weeks(days)| && 0 <= c < 7
        ensures Weeks(days)[r][c] == days[7 * r + c]
      {
        assert Weeks(days)[r] == Weeks(tail)[r - 1];
        assert tail[7 * (r - 1) + c] == days[7 * r + c];
      }
    }
  }

  /** The flat day sequence is a whole number of weeks, cell k holding CellDay. */
  lemma MonthDaysCells(y: int, m: int)
    requires 1 <= m <= 12
    ensures |MonthDays(y, m)| == 7 * RowCount(y, m)
    ensures forall k :: 0 <= k < |MonthDays(y, m)| ==>
      MonthDays(y, m)[k] == CellDay(Weekday(y, m, 1), DaysInMonth(y, m), k)
  {
    var before, n := Weekday(y, m, 1), DaysInMonth(y, m);
    var after := (-before - n) % 7;
    AfterFillsWeek(before, n);
    var days := MonthDays(y, m);
    forall k | 0 <= k < |days|
      ensures days[k] == CellDay(before, n, k)
    {
      if k < before {
        assert days[k] == Zeros(before)[k];
      } else if k < before + n {
        assert days[k] == DaysUpTo(n)[k - before];
      } else {
        assert days[k] == Zeros(after)[k - before - n];
      }
    }
  }

  /** The trailing zeros complete the last week. */
  lemma AfterFillsWeek(before: int, n: int)
    requires 0 <= before < 7 && 28 <= n <= 31
    ensures before + n + (-before - n) % 7 == 7 * ((before + n + 6) / 7)
  {
    var q, r := (before + n) / 7, (before + n) % 7;
    assert before + n == 7 * q + r;
    if r == 0 {
      assert -before - n == 7 * (-q);
    } else {
      assert -before - n == 7 * (-q - 1) + (7 - r);
    }
  }

  /** Where day d is: in row (off + d - 1) / 7, in the column of its weekday. */
  lemma DayLocation(y: int, m: int, d: int)
    requires 1 <= m <= 12 && 1 <= d <= DaysInMonth(y, m)
    ensures var k := Weekday(y, m, 1) + d - 1;
      && k / 7 < RowCount(y, m)
      && MonthDaysCalendar(y, m)[k / 7][k % 7] == d
      && k % 7 == Weekday(y, m, d)
  {
    var off, n := Weekday(y, m, 1), DaysInMonth(y, m);
    var k := off + d - 1;
    RowOfDay(off, n, d);
    MonthLayout(y, m);
    assert MonthDaysCalendar(y, m)[k / 7][k % 7] == CellDay(off, n, 7 * (k / 7) + k % 7);
    WeekdayInMonth(y, m, d);
  }

  /** Day d falls d - 1 weekdays after day 1. */
  lemma WeekdayInMonth(y: int, m: int, d: int)
    requires 1 <= m <= 12
    ensures (Weekday(y, m, 1) + d - 1) % 7 == Weekday(y, m, d)
  {
    var first := Ordinal(y, m, 1);
    assert Ordinal(y, m, d) == first + d - 1;
    WeekdayOfDay(first, Weekday(y, m, 1), d, Weekday(y, m, d));
  }

  /** Cell off + d - 1 of a month of n days is in one of its rows. */
  lemma RowOfDay(off: int, n: int, d: int)
    requires 0 <= off < 7 && 1 <= d <= n
    ensures var k := off + d - 1; 0 <= k / 7 < (off + n + 6) / 7 && k == 7 * (k / 7) + k % 7
  {
    var k := off + d - 1;
    var q, r := k / 7, k % 7;
    assert k == 7 * q + r && 0 <= r < 7;
    assert off + n + 6 >= 7 * (q + 1);
  }

  /** Day d is in no other cell: together with DayLocation, the days run 1 .. N in reading order, each once. */
  lemma DayOnce(y: int, m: int, d: int)
    requires 1 <= m <= 12 && 1 <= d <= DaysInMonth(y, m)
    ensures forall r, c :: 0 <= r < RowCount(y, m) && 0 <= c < 7 && MonthDaysCalendar(y, m)[r][c] == d ==>
      7 * r + c == Weekday(y, m, 1) + d - 1
  {
    MonthLayout(y, m);
  }

  /** The weekday of day d follows from the weekday of day 1. */
  lemma WeekdayOfDay(first: int, off: int, d: int, w: int)
    requires 0 <= off < 7 && (first - off - 1) % 7 == 0
    requires 0 <= w < 7 && (first + d - 1 - w - 1) % 7 == 0
    ensures (off + d - 1) % 7 == w
  {
    var j := (first - off - 1) / 7;
    var i := (first + d - 1 - w - 1) / 7;
    assert first - off - 1 == 7 * j;
    assert first + d - 1 - w - 1 == 7 * i;
    assert off + d - 1 == 7 * (i - j) + w;
  }

  /**
   The first row holds one 0 per weekday before day 1, and every row holds a day, on its Monday or its Sunday.
   */
  lemma LeadingBlanksAndRowDays(y: int, m: int)
    requires 1 <= m <= 12
    ensures forall c :: 0 <= c < 7 ==> (MonthDaysCalendar(y, m)[0][c] == 0 <==> c < Weekday(y, m, 1))
    ensures forall r :: 0 <= r < RowCount(y, m) ==>
      MonthDaysCalendar(y, m)[r][0] != 0 || MonthDaysCalendar(y, m)[r][6] != 0
  {
    MonthLayout(y, m);
    var off, n := Weekday(y, m, 1), DaysInMonth(y, m);
    var cal := MonthDaysCalendar(y, m);
    forall r | 0 <= r < RowCount(y, m)
      ensures cal[r][0] != 0 || cal[r][6] != 0
    {
      if r > 0 {
        var q := (off + n + 6) / 7;
        assert 7 * q <= off + n + 6 && r < q;
        assert cal[r][0] == CellDay(off, n, 7 * r) != 0;
      } else {
        assert cal[r][6] == CellDay(off, n, 6) != 0;
      }
    }
  }

  /** February 2024 starts on a Thursday and has five week rows, holding 29 and no 30. */
  lemma February2024Layout()
    ensures RowCount(2024, 2) == 5
    ensures MonthDaysCalendar(2024, 2)[4][3] == 29
    ensures forall r, c :: 0 <= r < RowCount(2024, 2) && 0 <= c < 7 ==> MonthDaysCalendar(2024, 2)[r][c] != 30
  {
    February2024Week();
    MonthLayout(2024, 2);
    assert DaysInMonth(2024, 2) == 29;
  }

  /**
   All the days of one week row fall in the same ISO week: the week number
   that the row's first day gives is the ISO week of every day in the row.
   */
  lemma RowSharesIsoWeek(y: int, m: int, r: int, c: int, c': int)
    requires MIN_YEAR <= y <= MAX_YEAR && 1 <= m <= 12
    requires 0 <= r < RowCount(y, m) && 0 <= c < 7 && 0 <= c' < 7
    requires MonthDaysCalendar(y, m)[r][c] != 0 && MonthDaysCalendar(y, m)[r][c'] != 0
    ensures var d, d' := MonthDaysCalendar(y, m)[r][c], MonthDaysCalendar(y, m)[r][c'];
      && ValidDate(y, m, d) && ValidDate(y, m, d')
      && IsoCalendar(y, m, d).isoYear == IsoCalendar(y, m, d').isoYear
      && IsoCalendar(y, m, d).week == IsoCalendar(y, m, d').week
  {
    MonthLayout(y, m);
    var off := Weekday(y, m, 1);
    var d, d' := MonthDaysCalendar(y, m)[r][c], MonthDaysCalendar(y, m)[r][c'];
    SameRowSameWeek(Ordinal(y, m, 1), off, r, c, c');
    SameWeekSameIsoWeek(y, m, d, y, m, d');
  }

  /** Cells of row r lie in the same Monday-to-Sunday week of day ordinals. */
  lemma SameRowSameWeek(first: int, off: int, r: int, c: int, c': int)
    requires (first - off - 1) % 7 == 0 && 0 <= c < 7 && 0 <= c' < 7
    ensures (first + (7 * r + c - off) - 1) / 7 == (first + (7 * r + c' - off) - 1) / 7
  {
    var j := (first - off - 1) / 7;
    assert first - off - 1 == 7 * j;
    assert first + (7 * r + c - off) - 1 == 7 * (j + r) + c;
    assert first + (7 * r + c' - off) - 1 == 7 * (j + r) + c';
  }
}
