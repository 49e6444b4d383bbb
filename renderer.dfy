/**
 `CalendarRenderer`: the styled text of one month (`render_month_lines`)
 and of a whole year in blocks of three months (`print_year`). The events
 are passed in as the engine's map and the current date as `today`; each
 printed line is a value of `Styled.Line`.
 */
module Renderer {
  import opened Wrappers
  import opened Gregorian
  import opened Format
  import opened Styled
  import opened Grid
  import opened Engine

  /** The weekday header of the day columns. */
  const DAY_HEADER := "Mo Tu We Th Fr Sa Su"

  /** The three spaces written after each cell and after each month of a year row. */
  const GUTTER := "   "

  /** The visible width of a month: 24 with the week column, 21 without. */
  function LineWidth(withWeeks: bool): int {
    if withWeeks then 24 else 21
  }

  function Max(a: int, b: int): int {
    if a < b then b else a
  }

  /** `_get_day_styled`: the day as `f"{day:2d}"`, in the style DayStyle picks. */
  function DayStyled(y: int, m: int, d: int, today: Date, events: EventMap): (s: Span)
    requires ValidDate(y, m, d)
    ensures s.text == Pad2Space(d) && |s.text| == 2
  {
    var dayStr := Pad2Space(d);
    var isToday := Date(y, m, d) == today;
    var hasEvent := DateKey(y, m, d) in events;
    if hasEvent then
      if isToday then Span(dayStr, TodayEventHighlight) else Span(dayStr, Red)
    else if isToday then Span(dayStr, TodayHighlight)
    else Span(dayStr, Plain)
  }

  /**
   The style precedence of `_get_day_styled`: exactly one of the four styles,
   an event on today first, then an event, then today, else plain.
   */
  lemma DayStylePrecedence(y: int, m: int, d: int, today: Date, events: EventMap)
    requires ValidDate(y, m, d)
    ensures var s := DayStyled(y, m, d, today, events);
      && (s.style == TodayEventHighlight <==> HasEvent(events, y, m, d) && Date(y, m, d) == today)
      && (s.style == Red <==> HasEvent(events, y, m, d) && Date(y, m, d) != today)
      && (s.style == TodayHighlight <==> !HasEvent(events, y, m, d) && Date(y, m, d) == today)
      && (s.style == Plain <==> !HasEvent(events, y, m, d) && Date(y, m, d) != today)
  {
  }

  /** The title text `f"{month_name} {year}"`. */
  function Title(y: nat, m: int): (t: string)
    requires 1 <= m <= 12
    ensures y < 10000 ==> |t| <= 14
  {
    DecimalLength(y);
    MonthName(m) + " " + Decimal(y)
  }

  /** The title centred on the width, the odd space going to the right, then padded to the width. */
  function TitleContent(y: nat, m: int, width: int): (s: string)
    requires 1 <= m <= 12
    ensures |Title(y, m)| <= width ==> |s| == width
  {
    var title := Title(y, m);
    var padLeft := Max(0, (width - |title|) / 2);
    var content := Spaces(padLeft) + title;
    content + Spaces(width - |content|)
  }

  function TitleLine(y: nat, m: int, withWeeks: bool): Line
    requires 1 <= m <= 12
  {
    [Span(TitleContent(y, m, LineWidth(withWeeks)), Bold)]
  }

  /** The header, with "CW " in front when the week column is shown, padded to the width. */
  function HeaderText(withWeeks: bool): (h: string)
    ensures |h| == LineWidth(withWeeks)
  {
    var width := LineWidth(withWeeks);
    var header := if withWeeks then "CW " + DAY_HEADER else DAY_HEADER;
    if |header| < width then header + Spaces(width - |header|) else header
  }

  function HeaderLine(withWeeks: bool): Line {
    [Span(HeaderText(withWeeks), Cyan)]
  }

  /** The index of the first non-zero cell of a row, or the row's length when it has none. */
  function FirstNonZero(row: seq<int>): (i: nat)
    ensures i <= |row|
    ensures forall j :: 0 <= j < i ==> row[j] == 0
    ensures i < |row| ==> row[i] != 0
  {
    if row == [] then 0
    else if row[0] != 0 then 0
    else 1 + FirstNonZero(row[1..])
  }

  /** Every cell of a week row is 0 or a day of the month. */
  predicate DaysOf(y: int, m: int, row: seq<int>)
    requires 1 <= m <= 12
  {
    forall j :: 0 <= j < |row| ==> 0 <= row[j] <= DaysInMonth(y, m)
  }

  /** The week column: the week number of the row's first day, `f"{wk:2d} "`, or three spaces. */
  function WeekNumberCell(y: int, m: int, row: seq<int>): (s: string)
    requires MIN_YEAR <= y <= MAX_YEAR && 1 <= m <= 12 && DaysOf(y, m, row)
    ensures |s| == 3
  {
    var i := FirstNonZero(row);
    if i < |row| then Pad2Space(WeekNumber(y, m, row[i])) + " " else "   "
  }

  /** One day column: three spaces for a 0 cell, else the styled day and a space. */
  function DayCell(y: int, m: int, day: int, today: Date, events: EventMap): Line
    requires 1 <= m <= 12 && MIN_YEAR <= y <= MAX_YEAR && 0 <= day <= DaysInMonth(y, m)
  {
    if day == 0 then [Span(GUTTER, Plain)] else [DayStyled(y, m, day, today, events), Span(" ", Plain)]
  }

  /** The day columns of a row, cell after cell. */
  function DayCells(y: int, m: int, row: seq<int>, today: Date, events: EventMap): Line
    requires MIN_YEAR <= y <= MAX_YEAR && 1 <= m <= 12 && DaysOf(y, m, row)
  {
    if row == [] then []
    else DayCells(y, m, row[..|row| - 1], today, events) + DayCell(y, m, row[|row| - 1], today, events)
  }

  /** A week line: the week column when shown, then the day columns. */
  function WeekLine(y: int, m: int, row: seq<int>, withWeeks: bool, today: Date, events: EventMap): Line
    requires MIN_YEAR <= y <= MAX_YEAR && 1 <= m <= 12 && DaysOf(y, m, row)
  {
    (if withWeeks then [Span(WeekNumberCell(y, m, row), Cyan)] else [])
      + DayCells(y, m, row, today, events)
  }

  /** A blank line of `" " * width`. */
  function BlankLine(width: int): Line {
    [Span(Spaces(width), Plain)]
  }

  /** k blank lines of the width (none when k is zero or negative). */
  function Blanks(k: int, width: int): (lines: seq<Line>)
    ensures |lines| == if k <= 0 then 0 else k
    ensures forall i :: 0 <= i < |lines| ==> lines[i] == BlankLine(width)
  {
    if k <= 0 then [] else Blanks(k - 1, width) + [BlankLine(width)]
  }

  /** The rows of monthdayscalendar are rows of days of the month. */
  lemma CalendarRowsAreDays(y: int, m: int)
    requires 1 <= m <= 12
    ensures RowsOf(y, m, MonthDaysCalendar(y, m))
  {
  }

  /** Every row is a row of days of the month. */
  predicate RowsOf(y: int, m: int, rows: seq<seq<int>>)
    requires 1 <= m <= 12
  {
    forall r :: 0 <= r < |rows| ==> DaysOf(y, m, rows[r])
  }

  /** One week line per row, in order. */
  function WeekLines(y: int, m: int, rows: seq<seq<int>>, withWeeks: bool, today: Date, events: EventMap): (lines: seq<Line>)
    requires MIN_YEAR <= y <= MAX_YEAR && 1 <= m <= 12 && RowsOf(y, m, rows)
  {
    seq(|rows|, r requires 0 <= r < |rows| => WeekLine(y, m, rows[r], withWeeks, today, events))
  }

  /**
   What `render_month_lines` returns: the title, the header, one line per
   week row, then blank lines of the width for as long as there are fewer than 8.
   */
  function MonthLines(y: int, m: int, withWeeks: bool, today: Date, events: EventMap): seq<Line>
    requires MIN_YEAR <= y <= MAX_YEAR && 1 <= m <= 12
  {
    CalendarRowsAreDays(y, m);
    var body := [TitleLine(y, m, withWeeks), HeaderLine(withWeeks)]
      + WeekLines(y, m, MonthDaysCalendar(y, m), withWeeks, today, events);
    body + Blanks(8 - |body|, LineWidth(withWeeks))
  }

  /**
   The month is always 8 lines: the title, the header, one line per row of
   `monthdayscalendar` in order, then blank lines of the width.
   */
  lemma MonthLinesShape(y: int, m: int, withWeeks: bool, today: Date, events: EventMap)
    requires MIN_YEAR <= y <= MAX_YEAR && 1 <= m <= 12
    ensures var lines, cal := MonthLines(y, m, withWeeks, today, events), MonthDaysCalendar(y, m);
      && |lines| == 8
      && lines[0] == TitleLine(y, m, withWeeks)
      && lines[1] == HeaderLine(withWeeks)
      && (forall r :: 0 <= r < |cal| ==> lines[2 + r] == WeekLine(y, m, cal[r], withWeeks, today, events))
      && (forall i :: 2 + |cal| <= i < 8 ==> lines[i] == BlankLine(LineWidth(withWeeks)))
  {
    var cal := MonthDaysCalendar(y, m);
    CalendarRowsAreDays(y, m);
    var body := [TitleLine(y, m, withWeeks), HeaderLine(withWeeks)] + WeekLines(y, m, cal, withWeeks, today, events);
    var lines := MonthLines(y, m, withWeeks, today, events);
    assert lines == body + Blanks(8 - |body|, LineWidth(withWeeks));
    assert |body| == 2 + |cal| <= 8;
    forall r | 0 <= r < |cal|
      ensures lines[2 + r] == WeekLine(y, m, cal[r], withWeeks, today, events)
    {
      assert lines[2 + r] == body[2 + r] == WeekLines(y, m, cal, withWeeks, today, events)[r];
    }
  }

  /** What a day column shows: three spaces for a 0 cell, else `f"{day:2d}"` and a space. */
  function CellText(day: nat): string {
    if day == 0 then GUTTER else Pad2Space(day) + " "
  }

  /** What the day columns of a row show, cell after cell. */
  function RowText(row: seq<nat>): string {
    if row == [] then "" else RowText(row[..|row| - 1]) + CellText(row[|row| - 1])
  }

  /** The day columns show the row's cells as text, whatever styles the days get. */
  lemma {:induction false} DayCellsText(y: int, m: int, row: seq<int>, today: Date, events: EventMap)
    requires MIN_YEAR <= y <= MAX_YEAR && 1 <= m <= 12 && DaysOf(y, m, row)
    ensures Text(DayCells(y, m, row, today, events)) == RowText(row)
  {
    if row != [] {
      var front, last := row[..|row| - 1], row[|row| - 1];
      DayCellsText(y, m, front, today, events);
      var cell := DayCell(y, m, last, today, events);
      TextAppend(DayCells(y, m, front, today, events), cell);
      if last == 0 {
        TextSingle(Span(GUTTER, Plain));
      } else {
        var day := DayStyled(y, m, last, today, events);
        TextAppend([day], [Span(" ", Plain)]);
        TextSingle(day);
        TextSingle(Span(" ", Plain));
      }
    }
  }

  /** A day column of a day below 100 is three characters wide. */
  lemma CellTextWidth(day: nat)
    requires day < 100
    ensures |CellText(day)| == 3
  {
  }

  /** Every cell of days below 100 takes three columns, cell c at columns 3c .. 3c + 2. */
  lemma RowTextColumns(row: seq<nat>)
    requires forall c :: 0 <= c < |row| ==> row[c] < 100
    ensures |RowText(row)| == 3 * |row|
    ensures forall c :: 0 <= c < |row| ==> RowText(row)[3 * c..3 * c + 3] == CellText(row[c])
  {
    var cells := CellTexts(row);
    CellTextsWidth(row);
    ConcatColumns(cells);
    RowTextIsConcat(row);
    var t := RowText(row);
    forall c | 0 <= c < |row|
      ensures t[3 * c..3 * c + 3] == CellText(row[c])
    {
      assert t[3 * c..3 * c + 3] == Concat(cells)[3 * c..3 * c + 3] == cells[c];
    }
  }

  /** The cell texts of days below 100 are three characters each. */
  lemma CellTextsWidth(row: seq<nat>)
    requires forall c :: 0 <= c < |row| ==> row[c] < 100
    ensures forall c :: 0 <= c < |row| ==> |CellTexts(row)[c]| == 3
  {
    forall c | 0 <= c < |row|
      ensures |CellTexts(row)[c]| == 3
    {
      CellTextWidth(row[c]);
    }
  }

  /** The texts of the cells of a row. */
  function CellTexts(row: seq<nat>): (cells: seq<string>)
    ensures |cells| == |row|
  {
    seq(|row|, c requires 0 <= c < |row| => CellText(row[c]))
  }

  /** Strings written one after the other. */
  function Concat(cells: seq<string>): string {
    if cells == [] then "" else Concat(cells[..|cells| - 1]) + cells[|cells| - 1]
  }

  lemma {:induction false} RowTextIsConcat(row: seq<nat>)
    ensures RowText(row) == Concat(CellTexts(row))
  {
    if row != [] {
      var front := row[..|row| - 1];
      RowTextIsConcat(front);
      assert CellTexts(row)[..|row| - 1] == CellTexts(front);
    }
  }

  /** Strings of three characters each: string c is at columns 3c .. 3c + 2 of the whole. */
  lemma {:induction false} ConcatColumns(cells: seq<string>)
    requires forall c :: 0 <= c < |cells| ==> |cells[c]| == 3
    ensures |Concat(cells)| == 3 * |cells|
    ensures forall c :: 0 <= c < |cells| ==> Concat(cells)[3 * c..3 * c + 3] == cells[c]
  {
    if cells != [] {
      var front, last := cells[..|cells| - 1], cells[|cells| - 1];
      ConcatColumns(front);
      var a := Concat(front);
      forall c | 0 <= c < |cells|
        ensures (a + last)[3 * c..3 * c + 3] == cells[c]
      {
        ColumnOfAppend(a, last, |front|, c);
      }
    }
  }

  /** Column c of three-character columns, after one more column is appended. */
  lemma ColumnOfAppend(a: string, b: string, n: nat, c: nat)
    requires |a| == 3 * n && |b| == 3 && c <= n
    ensures (a + b)[3 * c..3 * c + 3] == if c < n then a[3 * c..3 * c + 3] else b
  {
    if c == n {
      assert (a + b)[|a|..|a + b|] == b;
    }
  }

  /** A week line shows its week column when shown, then its day columns. */
  lemma WeekLineText(y: int, m: int, row: seq<int>, withWeeks: bool, today: Date, events: EventMap)
    requires MIN_YEAR <= y <= MAX_YEAR && 1 <= m <= 12 && DaysOf(y, m, row)
    ensures Text(WeekLine(y, m, row, withWeeks, today, events))
         == (if withWeeks then WeekNumberCell(y, m, row) else "") + RowText(row)
  {
    var prefix: Line := if withWeeks then [Span(WeekNumberCell(y, m, row), Cyan)] else [];
    TextAppend(prefix, DayCells(y, m, row, today, events));
    if withWeeks {
      TextSingle(Span(WeekNumberCell(y, m, row), Cyan));
    }
    DayCellsText(y, m, row, today, events);
  }

  /** A week line of seven cells is as wide as the month. */
  lemma WeekLineWidth(y: int, m: int, row: seq<int>, withWeeks: bool, today: Date, events: EventMap)
    requires MIN_YEAR <= y <= MAX_YEAR && 1 <= m <= 12 && DaysOf(y, m, row) && |row| == 7
    ensures Width(WeekLine(y, m, row, withWeeks, today, events)) == LineWidth(withWeeks)
  {
    WeekLineText(y, m, row, withWeeks, today, events);
    RowTextColumns(row);
  }

  /** The title line is as wide as the month: the title fits, and is padded to the width. */
  lemma TitleLineWidth(y: int, m: int, withWeeks: bool)
    requires MIN_YEAR <= y <= MAX_YEAR && 1 <= m <= 12
    ensures Width(TitleLine(y, m, withWeeks)) == LineWidth(withWeeks)
  {
    TextSingle(Span(TitleContent(y, m, LineWidth(withWeeks)), Bold));
  }

  /** The header line and a blank line are as wide as the month. */
  lemma HeaderAndBlankWidth(withWeeks: bool)
    ensures Width(HeaderLine(withWeeks)) == LineWidth(withWeeks)
    ensures Width(BlankLine(LineWidth(withWeeks))) == LineWidth(withWeeks)
  {
    TextSingle(Span(HeaderText(withWeeks), Cyan));
    TextSingle(Span(Spaces(LineWidth(withWeeks)), Plain));
  }

  /** Every line of a month has the visible width 24 with the week column and 21 without. */
  lemma MonthLinesWidth(y: int, m: int, withWeeks: bool, today: Date, events: EventMap)
    requires MIN_YEAR <= y <= MAX_YEAR && 1 <= m <= 12
    ensures var lines := MonthLines(y, m, withWeeks, today, events);
      forall i :: 0 <= i < |lines| ==> Width(lines[i]) == LineWidth(withWeeks)
  {
    var lines, cal := MonthLines(y, m, withWeeks, today, events), MonthDaysCalendar(y, m);
    MonthLinesShape(y, m, withWeeks, today, events);
    TitleLineWidth(y, m, withWeeks);
    HeaderAndBlankWidth(withWeeks);
    forall i | 2 <= i < 2 + |cal|
      ensures Width(lines[i]) == LineWidth(withWeeks)
    {
      CalendarRowsAreDays(y, m);
      WeekLineWidth(y, m, cal[i - 2], withWeeks, today, events);
    }
  }

  /**
   The title is centred: after `pad_left` spaces comes the title, then spaces
   to the width, and the right padding is the left one or one more.
   */
  lemma TitleCentered(y: nat, m: int, width: int)
    requires 1 <= m <= 12 && |Title(y, m)| <= width
    ensures var t := Title(y, m);
      var left, right := (width - |t|) / 2, width - |t| - (width - |t|) / 2;
      && TitleContent(y, m, width) == Spaces(left) + t + Spaces(right)
      && left <= right <= left + 1
  {
  }

  /** Without the week column the header is the weekday names and a space; with it, "CW " comes first. */
  lemma HeaderTextValue(withWeeks: bool)
    ensures HeaderText(withWeeks) == (if withWeeks then "CW " else "") + DAY_HEADER + " "
  {
  }

  /**
   The week column of a calendar row is the ISO week, `f"{wk:2d} "`, of any
   day of the row: all the days of a row share their ISO week.
   */
  lemma WeekColumnIsIsoWeek(y: int, m: int, r: int, c: int)
    requires MIN_YEAR <= y <= MAX_YEAR && 1 <= m <= 12
    requires 0 <= r < RowCount(y, m) && 0 <= c < 7 && MonthDaysCalendar(y, m)[r][c] != 0
    ensures var row := MonthDaysCalendar(y, m)[r];
      WeekNumberCell(y, m, row) == Pad2Space(IsoCalendar(y, m, row[c]).week) + " "
  {
    CalendarRowsAreDays(y, m);
    var row := MonthDaysCalendar(y, m)[r];
    var i := FirstNonZero(row);
    assert i <= c;
    RowSharesIsoWeek(y, m, r, i, c);
  }

  /** The week column shows three spaces exactly when the row has no day. */
  lemma WeekColumnBlank(y: int, m: int, row: seq<int>)
    requires MIN_YEAR <= y <= MAX_YEAR && 1 <= m <= 12 && DaysOf(y, m, row)
    ensures WeekNumberCell(y, m, row) == "   " <==> forall j :: 0 <= j < |row| ==> row[j] == 0
  {
    var i := FirstNonZero(row);
    if i < |row| {
      var wk := WeekNumber(y, m, row[i]);
      DecimalLength(wk);
      assert Pad2Space(wk)[1] != ' ';
      assert WeekNumberCell(y, m, row)[1] != ' ';
    }
  }

  /** Every row of a month's calendar has a day, so none has a blank week column. */
  lemma CalendarWeekColumnsNotBlank(y: int, m: int, r: int)
    requires MIN_YEAR <= y <= MAX_YEAR && 1 <= m <= 12 && 0 <= r < RowCount(y, m)
    ensures WeekNumberCell(y, m, MonthDaysCalendar(y, m)[r]) != "   "
  {
    CalendarRowsAreDays(y, m);
    LeadingBlanksAndRowDays(y, m);
    WeekColumnBlank(y, m, MonthDaysCalendar(y, m)[r]);
  }

  /** The first row of February 2024 is in week 5, shown as " 5 ". */
  lemma February2024WeekColumn()
    ensures WeekNumberCell(2024, 2, MonthDaysCalendar(2024, 2)[0]) == " 5 "
  {
    CalendarRowsAreDays(2024, 2);
    February2024Week();
    MonthLayout(2024, 2);
    assert MonthDaysCalendar(2024, 2)[0][3] == 1;
    WeekColumnIsIsoWeek(2024, 2, 0, 3);
  }

  /**
   `render_month_lines(year, month, with_weeks)`, in its four steps: the
   title, the header, the week lines, the blank lines up to 8.
   */
  method RenderMonthLines(y: int, m: int, withWeeks: bool, today: Date, events: EventMap) returns (lines: seq<Line>)
    requires MIN_YEAR <= y <= MAX_YEAR && 1 <= m <= 12
    ensures lines == MonthLines(y, m, withWeeks, today, events)
  {
    lines := [];
    var monthDays := MonthDaysCalendar(y, m);
    var width := if withWeeks then 24 else 21;
    assert width == LineWidth(withWeeks);
    var titleLine := RenderTitle(y, m, width);
    lines := lines + [titleLine];
    var headerLine := RenderHeader(withWeeks, width);
    lines := lines + [headerLine];
    assert lines == [TitleLine(y, m, withWeeks), HeaderLine(withWeeks)];
    CalendarRowsAreDays(y, m);
    lines := AppendWeekLines(lines, y, m, monthDays, withWeeks, today, events);
    lines := PadLines(lines, width);
  }

  /** Step 1 of `render_month_lines`: the bold title line. */
  method RenderTitle(y: int, m: int, width: int) returns (line: Line)
    requires MIN_YEAR <= y <= MAX_YEAR && 1 <= m <= 12
    ensures line == [Span(TitleContent(y, m, width), Bold)]
  {
    var monthName := MonthName(m);
    var title := monthName + " " + Decimal(y);
    var padLeft := Max(0, (width - |title|) / 2);
    var titleContent := Spaces(padLeft) + title;
    titleContent := titleContent + Spaces(width - |titleContent|);
    line := [Span(titleContent, Bold)];
  }

  /** Step 2 of `render_month_lines`: the header line, padded to the width. */
  method RenderHeader(withWeeks: bool, width: int) returns (line: Line)
    requires width == LineWidth(withWeeks)
    ensures line == HeaderLine(withWeeks)
  {
    var header := DAY_HEADER;
    if withWeeks {
      header := "CW " + header;
    }
    if |header| < width {
      header := header + Spaces(width - |header|);
    }
    line := [Span(header, Cyan)];
  }

  /** Step 3 of `render_month_lines`: one line per week row, appended in order. */
  method AppendWeekLines(lines0: seq<Line>, y: int, m: int, monthDays: seq<seq<int>>, withWeeks: bool,
                         today: Date, events: EventMap) returns (lines: seq<Line>)
    requires MIN_YEAR <= y <= MAX_YEAR && 1 <= m <= 12 && RowsOf(y, m, monthDays)
    ensures lines == lines0 + WeekLines(y, m, monthDays, withWeeks, today, events)
  {
    lines := lines0;
    for w := 0 to |monthDays|
      invariant lines == lines0 + WeekLines(y, m, monthDays[..w], withWeeks, today, events)
    {
      var line := RenderWeekLine(y, m, monthDays[w], withWeeks, today, events);
      WeekLinesStep(lines0, lines, line, y, m, monthDays, w, withWeeks, today, events);
      lines := lines + [line];
    }
    assert monthDays[..|monthDays|] == monthDays;
  }

  /** The loop step of AppendWeekLines. */
  lemma WeekLinesStep(lines0: seq<Line>, lines: seq<Line>, line: Line, y: int, m: int, rows: seq<seq<int>>, w: int,
                      withWeeks: bool, today: Date, events: EventMap)
    requires MIN_YEAR <= y <= MAX_YEAR && 1 <= m <= 12 && RowsOf(y, m, rows) && 0 <= w < |rows|
    requires lines == lines0 + WeekLines(y, m, rows[..w], withWeeks, today, events)
    requires line == WeekLine(y, m, rows[w], withWeeks, today, events)
    ensures lines + [line] == lines0 + WeekLines(y, m, rows[..w + 1], withWeeks, today, events)
  {
    assert rows[..w + 1][..w] == rows[..w];
  }

  /** The padding loop of `render_month_lines`: blank lines of the width until there are 8. */
  method PadLines(body: seq<Line>, width: int) returns (lines: seq<Line>)
    ensures lines == body + Blanks(8 - |body|, width)
  {
    lines := body;
    while |lines| < 8
      invariant |body| <= |lines| && (|lines| == |body| || |lines| <= 8)
      invariant lines == body + Blanks(|lines| - |body|, width)
      decreases 8 - |lines|
    {
      lines := lines + [[Span(Spaces(width), Plain)]];
    }
  }

  /** One pass of the week loop of `render_month_lines`: the line of one week row. */
  method RenderWeekLine(y: int, m: int, week: seq<int>, withWeeks: bool, today: Date, events: EventMap)
    returns (line: Line)
    requires MIN_YEAR <= y <= MAX_YEAR && 1 <= m <= 12 && DaysOf(y, m, week)
    ensures line == WeekLine(y, m, week, withWeeks, today, events)
  {
    line := [];
    if withWeeks {
      var weekNumStr := RenderWeekNumber(y, m, week);
      line := line + [Span(weekNumStr, Cyan)];
    }
    line := AppendDayColumns(line, y, m, week, today, events);
  }

  /** The week column loop: the week number of the first non-zero day, then stop. */
  method RenderWeekNumber(y: int, m: int, week: seq<int>) returns (weekNumStr: string)
    requires MIN_YEAR <= y <= MAX_YEAR && 1 <= m <= 12 && DaysOf(y, m, week)
    ensures weekNumStr == WeekNumberCell(y, m, week)
  {
    weekNumStr := "   ";
    var i := 0;
    while i < |week|
      invariant 0 <= i <= |week|
      invariant forall j :: 0 <= j < i ==> week[j] == 0
      invariant weekNumStr == "   "
    {
      if week[i] != 0 {
        var wk := WeekNumber(y, m, week[i]);
        weekNumStr := Pad2Space(wk) + " ";
        assert FirstNonZero(week) == i;
        break;
      }
      i := i + 1;
    }
  }

  /** The day column loop: each cell of the row appended to `line`. */
  method AppendDayColumns(line0: Line, y: int, m: int, week: seq<int>, today: Date, events: EventMap)
    returns (line: Line)
    requires MIN_YEAR <= y <= MAX_YEAR && 1 <= m <= 12 && DaysOf(y, m, week)
    ensures line == line0 + DayCells(y, m, week, today, events)
  {
    line := line0;
    for j := 0 to |week|
      invariant line == line0 + DayCells(y, m, week[..j], today, events)
    {
      var cell: Line;
      if week[j] == 0 {
        cell := [Span("   ", Plain)];
      } else {
        cell := [DayStyled(y, m, week[j], today, events), Span(" ", Plain)];
      }
      CellStep(line0, line, cell, y, m, week, j, today, events);
      line := line + cell;
    }
    assert week[..|week|] == week;
  }

  /** The loop step of AppendDayColumns: appending the j-th cell keeps the invariant. */
  lemma CellStep(line0: Line, line: Line, cell: Line, y: int, m: int, week: seq<int>, j: int, today: Date, events: EventMap)
    requires MIN_YEAR <= y <= MAX_YEAR && 1 <= m <= 12 && DaysOf(y, m, week) && 0 <= j < |week|
    requires line == line0 + DayCells(y, m, week[..j], today, events)
    requires week[j] == 0 ==> cell == [Span("   ", Plain)]
    requires week[j] != 0 ==> cell == [DayStyled(y, m, week[j], today, events), Span(" ", Plain)]
    ensures line + cell == line0 + DayCells(y, m, week[..j + 1], today, events)
  {
    DayCellsStep(y, m, week, j, today, events);
    assert cell == DayCell(y, m, week[j], today, events);
  }

  /** The day columns of one more cell of a row. */
  lemma DayCellsStep(y: int, m: int, row: seq<int>, j: int, today: Date, events: EventMap)
    requires MIN_YEAR <= y <= MAX_YEAR && 1 <= m <= 12 && DaysOf(y, m, row) && 0 <= j < |row|
    ensures DayCells(y, m, row[..j + 1], today, events)
         == DayCells(y, m, row[..j], today, events) + DayCell(y, m, row[j], today, events)
  {
    assert row[..j + 1][..j] == row[..j];
  }

  // ---------------------------------------------------------------------
  // The year view

  /** The three spaces written after a month's line in a year row. */
  function GutterSpan(): Span {
    Span(GUTTER, Plain)
  }

  /**
   Row i of a block of months: each month's line i and the gutter, or
   `" " * 27` for a month that has no line i.
   */
  function BlockRow(blocks: seq<seq<Line>>, i: int): Line {
    if blocks == [] then []
    else
      var front, last := blocks[..|blocks| - 1], blocks[|blocks| - 1];
      BlockRow(front, i) + (if 0 <= i < |last| then last[i] + [GutterSpan()] else [Span(Spaces(27), Plain)])
  }

  /** The month lines, with week columns, of each of the months `ms`. */
  function MonthBlocks(y: int, ms: seq<int>, today: Date, events: EventMap): seq<seq<Line>>
    requires MIN_YEAR <= y <= MAX_YEAR && forall k :: 0 <= k < |ms| ==> 1 <= ms[k] <= 12
  {
    seq(|ms|, k requires 0 <= k < |ms| => MonthLines(y, ms[k], true, today, events))
  }

  /** The months of quarter q (0 .. 3). */
  function QuarterMonths(q: int): seq<int> {
    [3 * q + 1, 3 * q + 2, 3 * q + 3]
  }

  /** The rows of a block: row i for i in 0 .. 7, then the empty line. */
  function BlockLines(blocks: seq<seq<Line>>): seq<Line> {
    seq(8, i => BlockRow(blocks, i)) + [[]]
  }

  /** What one pass of the quarter loop prints: the block of quarter q's months. */
  function QuarterLines(y: int, q: int, today: Date, events: EventMap): seq<Line>
    requires MIN_YEAR <= y <= MAX_YEAR && 0 <= q < 4
  {
    BlockLines(MonthBlocks(y, QuarterMonths(q), today, events))
  }

  /** What `print_year` prints for the first k quarters. */
  function YearLines(y: int, k: int, today: Date, events: EventMap): seq<Line>
    requires MIN_YEAR <= y <= MAX_YEAR && 0 <= k <= 4
  {
    if k == 0 then [] else YearLines(y, k - 1, today, events) + QuarterLines(y, k - 1, today, events)
  }

  /**
   `print_year(year)`: the months in blocks of three, each block printed row
   by row and followed by an empty line; the printed lines are returned.
   */
  method PrintYear(y: int, today: Date, events: EventMap) returns (out: seq<Line>)
    requires MIN_YEAR <= y <= MAX_YEAR
    ensures out == YearLines(y, 4, today, events)
  {
    out := [];
    var months := seq(12, k => k + 1);
    var i := 0;
    while i < 12
      invariant 0 <= i <= 12 && i % 3 == 0
      invariant out == YearLines(y, i / 3, today, events)
    {
      var blockMonths := months[i..i + 3];
      assert blockMonths == QuarterMonths(i / 3);
      out := PrintQuarter(out, y, i / 3, blockMonths, today, events);
      YearLinesSnoc(y, i / 3, today, events);
      i := i + 3;
    }
  }

  /** The first k + 1 quarters are the first k and then quarter k. */
  lemma YearLinesSnoc(y: int, k: int, today: Date, events: EventMap)
    requires MIN_YEAR <= y <= MAX_YEAR && 0 <= k < 4
    ensures YearLines(y, k + 1, today, events) == YearLines(y, k, today, events) + QuarterLines(y, k, today, events)
  {
  }

  /** One pass of the quarter loop: render the block's months, then print the block. */
  method PrintQuarter(out0: seq<Line>, y: int, q: int, blockMonths: seq<int>, today: Date, events: EventMap)
    returns (out: seq<Line>)
    requires MIN_YEAR <= y <= MAX_YEAR && 0 <= q < 4 && blockMonths == QuarterMonths(q)
    ensures out == out0 + QuarterLines(y, q, today, events)
  {
    var monthBlocks := RenderBlock(y, blockMonths, today, events);
    out := PrintBlock(out0, monthBlocks);
  }

  /** The month lines of each month of a block, in order. */
  method RenderBlock(y: int, blockMonths: seq<int>, today: Date, events: EventMap) returns (monthBlocks: seq<seq<Line>>)
    requires MIN_YEAR <= y <= MAX_YEAR && forall k :: 0 <= k < |blockMonths| ==> 1 <= blockMonths[k] <= 12
    ensures monthBlocks == MonthBlocks(y, blockMonths, today, events)
  {
    monthBlocks := [];
    for k := 0 to |blockMonths|
      invariant monthBlocks == MonthBlocks(y, blockMonths[..k], today, events)
    {
      var lines := RenderMonthLines(y, blockMonths[k], true, today, events);
      MonthBlocksSnoc(y, blockMonths, k, today, events);
      monthBlocks := monthBlocks + [lines];
    }
    assert blockMonths[..|blockMonths|] == blockMonths;
  }

  /** The blocks of one more month are the blocks so far and that month's lines. */
  lemma MonthBlocksSnoc(y: int, ms: seq<int>, k: int, today: Date, events: EventMap)
    requires MIN_YEAR <= y <= MAX_YEAR && forall j :: 0 <= j < |ms| ==> 1 <= ms[j] <= 12
    requires 0 <= k < |ms|
    ensures MonthBlocks(y, ms[..k + 1], today, events)
         == MonthBlocks(y, ms[..k], today, events) + [MonthLines(y, ms[k], true, today, events)]
  {
    assert ms[..k + 1] == ms[..k] + [ms[k]];
  }

  /** The rows of a block, line index by line index, then the empty line. */
  method PrintBlock(out0: seq<Line>, monthBlocks: seq<seq<Line>>) returns (out: seq<Line>)
    ensures out == out0 + BlockLines(monthBlocks)
  {
    out := out0;
    for lineIdx := 0 to 8
      invariant out == out0 + seq(lineIdx, i => BlockRow(monthBlocks, i))
    {
      var rowStr := JoinRow(monthBlocks, lineIdx);
      out := out + [rowStr];
    }
    out := out + [[]];
  }

  /** Row `lineIdx` of a block: each month's line and the gutter, one month after another. */
  method JoinRow(monthBlocks: seq<seq<Line>>, lineIdx: int) returns (rowStr: Line)
    ensures rowStr == BlockRow(monthBlocks, lineIdx)
  {
    rowStr := [];
    for mIdx := 0 to |monthBlocks|
      invariant rowStr == BlockRow(monthBlocks[..mIdx], lineIdx)
    {
      var mLines := monthBlocks[mIdx];
      if 0 <= lineIdx < |mLines| {
        rowStr := rowStr + mLines[lineIdx] + [GutterSpan()];
      } else {
        rowStr := rowStr + [Span(Spaces(27), Plain)];
      }
      assert monthBlocks[..mIdx + 1][..mIdx] == monthBlocks[..mIdx];
    }
    assert monthBlocks[..|monthBlocks|] == monthBlocks;
  }

  /** The first k quarters are 9k lines: each quarter's block is 9. */
  lemma {:induction false} YearLinesLength(y: int, k: int, today: Date, events: EventMap)
    requires MIN_YEAR <= y <= MAX_YEAR && 0 <= k <= 4
    ensures |YearLines(y, k, today, events)| == 9 * k
  {
    if k > 0 {
      YearLinesLength(y, k - 1, today, events);
      YearLinesSnoc(y, k - 1, today, events);
      QuarterLinesLength(y, k - 1, today, events);
    }
  }

  /** A quarter prints 9 lines. */
  lemma QuarterLinesLength(y: int, q: int, today: Date, events: EventMap)
    requires MIN_YEAR <= y <= MAX_YEAR && 0 <= q < 4
    ensures |QuarterLines(y, q, today, events)| == 9
  {
    BlockLinesAt(MonthBlocks(y, QuarterMonths(q), today, events));
  }

  /**
   The year is 36 lines, the four quarters' 9 lines each in order: line
   9q + j of the first k quarters is line j of quarter q.
   */
  lemma {:induction false} YearLinesLayout(y: int, k: int, q: int, j: int, today: Date, events: EventMap)
    requires MIN_YEAR <= y <= MAX_YEAR && 0 <= q < k <= 4 && 0 <= j < 9
    ensures |YearLines(y, k, today, events)| == 9 * k && |QuarterLines(y, q, today, events)| == 9
    ensures YearLines(y, k, today, events)[9 * q + j] == QuarterLines(y, q, today, events)[j]
    decreases k, 1
  {
    if q < k - 1 {
      YearLinesEarlier(y, k, q, j, today, events);
    } else {
      YearLinesLast(y, k, q, j, today, events);
    }
  }

  /** A line of a quarter before the last one is where the first k - 1 quarters put it. */
  lemma {:induction false} YearLinesEarlier(y: int, k: int, q: int, j: int, today: Date, events: EventMap)
    requires MIN_YEAR <= y <= MAX_YEAR && 0 <= q < k - 1 && k <= 4 && 0 <= j < 9
    ensures |YearLines(y, k, today, events)| == 9 * k && |QuarterLines(y, q, today, events)| == 9
    ensures YearLines(y, k, today, events)[9 * q + j] == QuarterLines(y, q, today, events)[j]
    decreases k, 0
  {
    YearLinesLayout(y, k - 1, q, j, today, events);
    YearLinesFront(y, k, 9 * q + j, today, events);
    YearLinesLength(y, k, today, events);
  }

  /** The last quarter's lines end the first k quarters. */
  lemma YearLinesLast(y: int, k: int, q: int, j: int, today: Date, events: EventMap)
    requires MIN_YEAR <= y <= MAX_YEAR && 0 <= q == k - 1 && k <= 4 && 0 <= j < 9
    ensures |YearLines(y, k, today, events)| == 9 * k && |QuarterLines(y, q, today, events)| == 9
    ensures YearLines(y, k, today, events)[9 * q + j] == QuarterLines(y, q, today, events)[j]
  {
    YearLinesLength(y, q, today, events);
    YearLinesSnoc(y, q, today, events);
    QuarterLinesLength(y, q, today, events);
  }

  /** The lines of the first k - 1 quarters begin the first k. */
  lemma YearLinesFront(y: int, k: int, p: int, today: Date, events: EventMap)
    requires MIN_YEAR <= y <= MAX_YEAR && 0 < k <= 4 && 0 <= p < 9 * (k - 1)
    ensures |YearLines(y, k - 1, today, events)| == 9 * (k - 1)
    ensures YearLines(y, k, today, events)[p] == YearLines(y, k - 1, today, events)[p]
  {
    YearLinesLength(y, k - 1, today, events);
    YearLinesSnoc(y, k - 1, today, events);
  }

  /** A block prints 9 lines: its rows 0 .. 7, then the empty line. */
  lemma BlockLinesAt(blocks: seq<seq<Line>>)
    ensures |BlockLines(blocks)| == 9
    ensures forall i :: 0 <= i < 8 ==> BlockLines(blocks)[i] == BlockRow(blocks, i)
    ensures BlockLines(blocks)[8] == []
  {
  }

  /**
   When each of three months has a line i, row i is the three lines joined,
   each followed by the gutter: the `" " * 27` filler is never written.
   */
  lemma BlockRowOfThree(blocks: seq<seq<Line>>, i: int)
    requires |blocks| == 3 && 0 <= i < |blocks[0]| && 0 <= i < |blocks[1]| && 0 <= i < |blocks[2]|
    ensures BlockRow(blocks, i) == blocks[0][i] + [GutterSpan()] + blocks[1][i] + [GutterSpan()] + blocks[2][i] + [GutterSpan()]
  {
    var one, two := blocks[..1], blocks[..2];
    assert one[..0] == [] && one[0] == blocks[0];
    assert BlockRow(one, i) == blocks[0][i] + [GutterSpan()];
    assert two[..1] == one && two[1] == blocks[1];
    assert BlockRow(two, i) == BlockRow(one, i) + (blocks[1][i] + [GutterSpan()]);
    assert blocks[..2] == two;
  }

  /** A month is 8 lines (the rest of its shape is MonthLinesShape). */
  lemma MonthLinesLength(y: int, m: int, withWeeks: bool, today: Date, events: EventMap)
    requires MIN_YEAR <= y <= MAX_YEAR && 1 <= m <= 12
    ensures |MonthLines(y, m, withWeeks, today, events)| == 8
  {
    MonthLinesShape(y, m, withWeeks, today, events);
  }

  /**
   Row i (i < 8) of quarter q is line i of each of its months 3q + 1,
   3q + 2, 3q + 3, in order, each followed by three spaces.
   */
  lemma QuarterRowIsMonthLines(y: int, q: int, i: int, today: Date, events: EventMap)
    requires MIN_YEAR <= y <= MAX_YEAR && 0 <= q < 4 && 0 <= i < 8
    ensures var a, b, c := MonthLines(y, 3 * q + 1, true, today, events),
                          MonthLines(y, 3 * q + 2, true, today, events),
                          MonthLines(y, 3 * q + 3, true, today, events);
      && |QuarterLines(y, q, today, events)| == 9 && |a| == 8 && |b| == 8 && |c| == 8
      && QuarterLines(y, q, today, events)[i] == a[i] + [GutterSpan()] + b[i] + [GutterSpan()] + c[i] + [GutterSpan()]
  {
    var blocks := MonthBlocks(y, QuarterMonths(q), today, events);
    var ms := QuarterMonths(q);
    assert ms[0] == 3 * q + 1 && ms[1] == 3 * q + 2 && ms[2] == 3 * q + 3;
    MonthBlockAt(y, ms, 0, today, events);
    MonthBlockAt(y, ms, 1, today, events);
    MonthBlockAt(y, ms, 2, today, events);
    BlockLinesAt(blocks);
    BlockRowOfThree(blocks, i);
  }

  /** Block k of the blocks of months ms is month ms[k], 8 lines long. */
  lemma MonthBlockAt(y: int, ms: seq<int>, k: int, today: Date, events: EventMap)
    requires MIN_YEAR <= y <= MAX_YEAR && forall j :: 0 <= j < |ms| ==> 1 <= ms[j] <= 12
    requires 0 <= k < |ms|
    ensures var blocks := MonthBlocks(y, ms, today, events);
      && |blocks| == |ms| && blocks[k] == MonthLines(y, ms[k], true, today, events) && |blocks[k]| == 8
  {
    MonthLinesLength(y, ms[k], true, today, events);
  }

  /**
   Row i (i < 8) of quarter q of the year is line i of each of its months
   3q + 1, 3q + 2, 3q + 3, in order, each followed by three spaces.
   */
  lemma YearRowIsMonthLines(y: int, q: int, i: int, today: Date, events: EventMap)
    requires MIN_YEAR <= y <= MAX_YEAR && 0 <= q < 4 && 0 <= i < 8
    ensures var a, b, c := MonthLines(y, 3 * q + 1, true, today, events),
                          MonthLines(y, 3 * q + 2, true, today, events),
                          MonthLines(y, 3 * q + 3, true, today, events);
      && |YearLines(y, 4, today, events)| == 36 && |a| == 8 && |b| == 8 && |c| == 8
      && YearLines(y, 4, today, events)[9 * q + i]
         == a[i] + [GutterSpan()] + b[i] + [GutterSpan()] + c[i] + [GutterSpan()]
  {
    YearLinesLayout(y, 4, q, i, today, events);
    QuarterRowIsMonthLines(y, q, i, today, events);
  }

  /** Three lines of width 24, each followed by the three-space gutter, are 81 columns wide. */
  lemma ThreeWidth(a: Line, b: Line, c: Line)
    requires Width(a) == 24 && Width(b) == 24 && Width(c) == 24
    ensures Width(a + [GutterSpan()] + b + [GutterSpan()] + c + [GutterSpan()]) == 81
  {
    var g := [GutterSpan()];
    TextSingle(GutterSpan());
    TextAppend(a, g);
    TextAppend(a + g, b);
    TextAppend(a + g + b, g);
    TextAppend(a + g + b + g, c);
    TextAppend(a + g + b + g + c, g);
  }

  /** The first k months of a block have 8 lines, line i being 24 columns wide. */
  predicate WideBlocks(blocks: seq<seq<Line>>, i: int, k: int)
    requires 0 <= k <= |blocks|
  {
    k == 0 || (WideBlocks(blocks, i, k - 1) && |blocks[k - 1]| == 8 && 0 <= i < 8 && Width(blocks[k - 1][i]) == 24)
  }

  /** Blocks whose months all have 8 lines, line i being 24 wide, are WideBlocks. */
  lemma {:induction false} WideUpTo(blocks: seq<seq<Line>>, i: int, k: int)
    requires 0 <= i < 8 && 0 <= k <= |blocks|
    requires forall j :: 0 <= j < k ==> |blocks[j]| == 8 && Width(blocks[j][i]) == 24
    ensures WideBlocks(blocks, i, k)
  {
    if k > 0 {
      WideUpTo(blocks, i, k - 1);
      WideBlocksSnoc(blocks, i, k - 1);
    }
  }

  /** Line i of the k-th month of a block is 24 columns wide. */
  lemma MonthBlockWidth(y: int, ms: seq<int>, k: int, i: int, today: Date, events: EventMap)
    requires MIN_YEAR <= y <= MAX_YEAR && forall j :: 0 <= j < |ms| ==> 1 <= ms[j] <= 12
    requires 0 <= k < |ms| && 0 <= i < 8
    ensures var blocks := MonthBlocks(y, ms, today, events);
      |blocks| == |ms| && |blocks[k]| == 8 && Width(blocks[k][i]) == 24
  {
    MonthLineWidth(y, ms[k], i, today, events);
  }

  /** One more month whose line i is 24 columns wide. */
  lemma WideBlocksSnoc(blocks: seq<seq<Line>>, i: int, k: int)
    requires 0 <= k < |blocks| && WideBlocks(blocks, i, k)
    requires |blocks[k]| == 8 && 0 <= i < 8 && Width(blocks[k][i]) == 24
    ensures WideBlocks(blocks, i, k + 1)
  {
  }

  /** Row i of a block of three months whose line i is 24 wide is 81 wide. */
  lemma BlockRowWidth(blocks: seq<seq<Line>>, i: int)
    requires |blocks| == 3 && WideBlocks(blocks, i, 3)
    ensures |BlockLines(blocks)| == 9 && Width(BlockLines(blocks)[i]) == 81
  {
    assert WideBlocks(blocks, i, 2) && WideBlocks(blocks, i, 1);
    BlockLinesAt(blocks);
    BlockRowOfThree(blocks, i);
    ThreeWidth(blocks[0][i], blocks[1][i], blocks[2][i]);
  }

  /** Every row of a quarter is 81 columns wide. */
  lemma QuarterRowWidth(y: int, q: int, i: int, today: Date, events: EventMap)
    requires MIN_YEAR <= y <= MAX_YEAR && 0 <= q < 4 && 0 <= i < 8
    ensures |QuarterLines(y, q, today, events)| == 9 && Width(QuarterLines(y, q, today, events)[i]) == 81
  {
    var ms := QuarterMonths(q);
    var blocks := MonthBlocks(y, ms, today, events);
    forall j | 0 <= j < 3
      ensures |blocks[j]| == 8 && Width(blocks[j][i]) == 24
    {
      MonthBlockWidth(y, ms, j, i, today, events);
    }
    WideUpTo(blocks, i, 3);
    BlockRowWidth(blocks, i);
  }

  /**
   Every row of the year view is 81 columns wide: the months stay aligned in
   their columns, three months of 24 and three gutters of 3.
   */
  lemma YearRowWidth(y: int, q: int, i: int, today: Date, events: EventMap)
    requires MIN_YEAR <= y <= MAX_YEAR && 0 <= q < 4 && 0 <= i < 8
    ensures |YearLines(y, 4, today, events)| == 36 && Width(YearLines(y, 4, today, events)[9 * q + i]) == 81
  {
    YearLinesLayout(y, 4, q, i, today, events);
    QuarterRowWidth(y, q, i, today, events);
  }

  /** Line i of a month with the week column is 24 columns wide. */
  lemma MonthLineWidth(y: int, m: int, i: int, today: Date, events: EventMap)
    requires MIN_YEAR <= y <= MAX_YEAR && 1 <= m <= 12 && 0 <= i < 8
    ensures |MonthLines(y, m, true, today, events)| == 8 && Width(MonthLines(y, m, true, today, events)[i]) == 24
  {
    MonthLinesLength(y, m, true, today, events);
    MonthLinesWidth(y, m, true, today, events);
  }
}
