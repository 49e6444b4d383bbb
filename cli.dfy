/**
 `main`: the `add` and `list` commands, and the heuristic that reads the
 remaining arguments as a month, a year, both or neither. The events map is
 the engine's; today's date stands for `datetime.datetime.now()` and
 `datetime.date.today()`.
 */
module Cli {
  import opened Wrappers
  import opened Gregorian
  import opened Format
  import opened Styled
  import opened Engine
  import opened Renderer
  import opened Listing

  // ---------------------------------------------------------------------
  // int() of an argument

  /**
   `int(s)` for a sign and ASCII digits: an optional '+' or '-', then at
   least one digit. None stands for the ValueError.
   */
  function ParseInt(s: string): (r: Option<int>)
    ensures r.Some? ==> s != []
  {
    if s != [] && (s[0] == '+' || s[0] == '-') then
      var digits := s[1..];
      if digits != [] && AllDigits(digits) then
        var v: int := DecimalValue(digits);
        Some(if s[0] == '-' then -v else v)
      else None
    else if s != [] && AllDigits(s) then Some(DecimalValue(s))
    else None
  }

  /** A number written out by `str()` is read back by `int()`. */
  lemma ParseIntRoundTrip(n: int)
    ensures ParseInt(if n < 0 then "-" + Decimal(-n) else Decimal(n)) == Some(n)
  {
    if n < 0 {
      var s := "-" + Decimal(-n);
      assert s[1..] == Decimal(-n);
      DecimalRoundTrip(-n);
    } else {
      DecimalRoundTrip(n);
    }
  }

  /** A word such as "list" or "abc" is not a number. */
  lemma ParseIntRefusesWord(s: string)
    requires s != [] && !IsDigit(s[0]) && s[0] != '+' && s[0] != '-'
    ensures ParseInt(s) == None
  {
  }

  // ---------------------------------------------------------------------
  // What to show

  datatype View = MonthView(year: int, month: int) | YearView(year: int)

  datatype Command =
    | Add(date: string, text: string)  // `add <date> <text>`
    | AddUsage                          // `add` with fewer than two operands
    | List                              // "list" anywhere in the arguments
    | Show(view: View)

  /** `if month:`: a month was set and is not 0. */
  predicate Truthy(month: Option<int>) {
    month.Some? && month.value != 0
  }

  /** The year and month the heuristic parser settles on (month None when it sets none). */
  function YearMonth(args: seq<string>, nowYear: int): (int, Option<int>) {
    if |args| == 1 then
      match ParseInt(args[0])
      case None => (nowYear, None)
      case Some(val) => if val > 12 then (val, None) else (nowYear, Some(val))
    else if |args| == 2 then
      match (ParseInt(args[0]), ParseInt(args[1]))
      case (Some(val1), Some(val2)) =>
        if val1 <= 12 && val2 > 12 then (val2, Some(val1))
        else if val1 > 12 && val2 <= 12 then (val1, Some(val2))
        else (nowYear, None)
      case _ => (nowYear, None)
    else (nowYear, None)
  }

  /**
   Step 3 of `main` on `sys.argv[1:]`: the month view of the month that was
   set, the current month when there are no arguments, the year view otherwise.
   */
  function SelectView(args: seq<string>, nowYear: int, nowMonth: int): (v: View)
    ensures v.MonthView? && |args| != 0 ==> v.month != 0 && v.month <= 12
    ensures v.YearView? ==> |args| != 0
  {
    var (year, month) := YearMonth(args, nowYear);
    if Truthy(month) then MonthView(year, month.value)
    else if |args| == 0 then MonthView(year, nowMonth)
    else YearView(year)
  }

  /** Which command `sys.argv` asks for: "add" as the first argument wins, then "list" anywhere. */
  function Dispatch(argv: seq<string>, nowYear: int, nowMonth: int): (c: Command)
    ensures c.Add? ==> |argv| >= 4 && c.date == argv[2] && c.text == argv[3]
  {
    if |argv| > 1 && argv[1] == "add" then
      if |argv| < 4 then AddUsage else Add(argv[2], argv[3])
    else if "list" in argv then List
    else Show(SelectView(if |argv| <= 1 then [] else argv[1..], nowYear, nowMonth))
  }

  // The cases of the heuristic

  /** `mycal`: the current month. */
  lemma NoArgumentsShowCurrentMonth(nowYear: int, nowMonth: int)
    ensures SelectView([], nowYear, nowMonth) == MonthView(nowYear, nowMonth)
  {
  }

  /** `mycal N`: a year above 12, a month of this year from 1 to 12 (and below 0, which the renderer refuses), the year view of this year for 0 or a word. */
  lemma OneArgument(a: string, nowYear: int, nowMonth: int)
    ensures var v := SelectView([a], nowYear, nowMonth);
      match ParseInt(a)
      case Some(n) =>
        if n > 12 then v == YearView(n)
        else if n != 0 then v == MonthView(nowYear, n)
        else v == YearView(nowYear)
      case None => v == YearView(nowYear)
  {
  }

  /**
   `mycal A B`: a month (at most 12) and a year (above 12) in either order
   give that month; month 0 gives that year; two numbers on the same side of
   12, or a word, give this year.
   */
  lemma TwoArguments(a: string, b: string, nowYear: int, nowMonth: int)
    ensures var v := SelectView([a, b], nowYear, nowMonth);
      match (ParseInt(a), ParseInt(b))
      case (Some(x), Some(y)) =>
        if x <= 12 && y > 12 then v == (if x != 0 then MonthView(y, x) else YearView(y))
        else if x > 12 && y <= 12 then v == (if y != 0 then MonthView(x, y) else YearView(x))
        else v == YearView(nowYear)
      case _ => v == YearView(nowYear)
  {
  }

  /** Three or more arguments are not read: the year view of this year. */
  lemma ManyArguments(args: seq<string>, nowYear: int, nowMonth: int)
    requires |args| >= 3
    ensures SelectView(args, nowYear, nowMonth) == YearView(nowYear)
  {
  }

  /** A month view shows the month that was given or the current one, in the given year or this one. */
  lemma MonthViewSource(args: seq<string>, nowYear: int, nowMonth: int)
    ensures var v := SelectView(args, nowYear, nowMonth);
      v.MonthView? ==> (v.year == nowYear || v.year > 12) && (|args| == 0 ==> v == MonthView(nowYear, nowMonth))
  {
  }

  /** `mycal 0 2024` shows the year 2024, `mycal 2 2024` February 2024, `mycal 2024 2` too. */
  lemma MonthZeroShowsYear(nowYear: int, nowMonth: int)
    ensures SelectView(["0", "2024"], nowYear, nowMonth) == YearView(2024)
    ensures SelectView(["2", "2024"], nowYear, nowMonth) == MonthView(2024, 2)
    ensures SelectView(["2024", "2"], nowYear, nowMonth) == MonthView(2024, 2)
  {
    Year2024();
    assert ParseInt("2024") == Some(2024);
    assert DecimalValue("0") == 0 by { assert "0"[..0] == []; }
    assert DecimalValue("2") == 2 by { assert "2"[..0] == []; }
  }

  /**
   "add" as the first argument is the add command whatever follows, "list"
   included: with two operands their date and text, with fewer the usage.
   */
  lemma AddBeforeList(argv: seq<string>, nowYear: int, nowMonth: int)
    requires |argv| > 1 && argv[1] == "add"
    ensures Dispatch(argv, nowYear, nowMonth) == if |argv| < 4 then AddUsage else Add(argv[2], argv[3])
  {
  }

  /** Otherwise "list" anywhere lists the events, whatever the other arguments. */
  lemma ListAnywhere(argv: seq<string>, nowYear: int, nowMonth: int)
    requires "list" in argv && !(|argv| > 1 && argv[1] == "add")
    ensures Dispatch(argv, nowYear, nowMonth) == List
  {
  }

  /** With neither command, the arguments after the program name choose the view. */
  lemma ShowOtherwise(argv: seq<string>, nowYear: int, nowMonth: int)
    requires "list" !in argv && !(|argv| > 1 && argv[1] == "add")
    ensures Dispatch(argv, nowYear, nowMonth) == Show(SelectView(if |argv| <= 1 then [] else argv[1..], nowYear, nowMonth))
  {
  }

  /** `mycal add 2024-02-05 dentist list` adds the event, and `mycal add list` gives the usage. */
  lemma AddBeforeListExample(nowYear: int, nowMonth: int)
    ensures Dispatch(["mycal", "add", "2024-02-05", "dentist", "list"], nowYear, nowMonth) == Add("2024-02-05", "dentist")
    ensures Dispatch(["mycal", "add", "list"], nowYear, nowMonth) == AddUsage
  {
    AddBeforeList(["mycal", "add", "2024-02-05", "dentist", "list"], nowYear, nowMonth);
    AddBeforeList(["mycal", "add", "list"], nowYear, nowMonth);
  }

  // ---------------------------------------------------------------------
  // Running a command

  const USAGE := "Usage: mycal add <YYYY-MM-DD> <text>"
  const INVALID_DATE := "Invalid date format. Use YYYY-MM-DD."

  /** The line `add` prints. */
  function AddMessage(ok: bool, date: string, text: string): Line {
    if ok then [Span("Event added for " + date + ": " + text, Green)] else [Span(INVALID_DATE, Red)]
  }

  /** The dates the renderer accepts: `calendar` refuses other months, `datetime.date` other years. */
  predicate Renderable(v: View) {
    match v
    case MonthView(y, m) => MIN_YEAR <= y <= MAX_YEAR && 1 <= m <= 12
    case YearView(y) => MIN_YEAR <= y <= MAX_YEAR
  }

  /** What a view prints. */
  function ViewLines(v: View, today: Date, events: EventMap): seq<Line>
    requires Renderable(v)
  {
    match v
    case MonthView(y, m) => MonthLines(y, m, true, today, events)
    case YearView(y) => YearLines(y, 4, today, events)
  }

  /**
   `main` after the engine is built: the lines printed, or None when the view
   asked for is one the renderer raises on. Only `add` changes the events.
   */
  method Run(engine: CalendarEngine, argv: seq<string>, today: Date) returns (out: Option<seq<Line>>)
    modifies engine
    ensures match Dispatch(argv, today.year, today.month)
      case Add(date, text) =>
        && (ParseDate(date).Some? ==> engine.events == WithEvent(old(engine.events), date, text))
        && (ParseDate(date).None? ==> engine.events == old(engine.events))
        && out == Some([AddMessage(ParseDate(date).Some?, date, text)])
      case AddUsage => engine.events == old(engine.events) && out == Some([[Span(USAGE, Plain)]])
      case List => engine.events == old(engine.events) && out == Some(EventListing(engine.events))
      case Show(v) =>
        && engine.events == old(engine.events)
        && out == if Renderable(v) then Some(ViewLines(v, today, engine.events)) else None
  {
    if |argv| > 1 && argv[1] == "add" {
      if |argv| < 4 {
        return Some([[Span(USAGE, Plain)]]);
      }
      var ok := engine.AddEvent(argv[2], argv[3]);
      if ok {
        out := Some([[Span("Event added for " + argv[2] + ": " + argv[3], Green)]]);
      } else {
        out := Some([[Span(INVALID_DATE, Red)]]);
      }
      return;
    }
    if "list" in argv {
      var lines := ListEvents(engine.events);
      return Some(lines);
    }
    var args := if |argv| <= 1 then [] else argv[1..];
    var v := SelectView(args, today.year, today.month);
    if !Renderable(v) {
      return None;
    }
    match v
    case MonthView(y, m) =>
      var lines := RenderMonthLines(y, m, true, today, engine.events);
      out := Some(lines);
    case YearView(y) =>
      var lines := PrintYear(y, today, engine.events);
      out := Some(lines);
  }
}
