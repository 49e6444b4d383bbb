# mycal: a terminal calendar, modelled in Dafny

`mycal` (`bin/gcal_cli.py`) is a small terminal calendar with three parts:

- **Month view.** It prints one month as eight lines: a centred title, a weekday header, one line per Monday-first week row, then blank padding lines. Each week row starts with an ISO calendar-week column (CW). Each day is coloured by whether it is today and whether it has an event.
- **Year view.** It prints the twelve months in four blocks of three, side by side.
- **Event commands.** `add` records a text under a date string in a JSON file. `list` lists every event in the string order of the date strings, which is calendar order for canonical YYYY-MM-DD keys (`Listing.DateKeyOrder`).

The command line picks between these. `add` and `list` are commands. Otherwise a heuristic reads the remaining arguments as a month, a year, both or neither.

This project models the program's core:
- the event store `CalendarEngine`;
- the month and year renderers;
- the listing;
- the command dispatch of `main`.

It also proves what these promise. The modules follow the program:

- `Gregorian`: the parts of Python's `datetime` the program relies on. This covers leap years, month lengths, day ordinals and weekdays. It also covers `date.isocalendar()`, as the ISO 8601 week date: week 1 holds the year's first Thursday, and weeks start on Monday.
- `Format`: the text formats the program writes and reads:
  - `str(n)`, `f"{n:2d}"` and `f"{n:02d}"`;
  - the English month names;
  - the event key `f"{year}-{month:02d}-{day:02d}"`;
  - the date check `strptime(s, "%Y-%m-%d")`, modelled on its regular expression.
- `Styled`: a printed line as a sequence of styled spans. The styles are abstract tokens that stand in for the ANSI colour codes. A line's visible width is the length of its text.
- `Grid`: `calendar.Calendar(firstweekday=0).monthdayscalendar`, the Monday-first grid of a month.
- `Engine`: the class `CalendarEngine`, which holds its events map as a field; `add_event`; and `get_week_number`.
- `Renderer`:
  - `_get_day_styled`;
  - `render_month_lines`, both as a specification function and as the looping method;
  - `print_year`, the same way.
- `Listing`: `list_events_list`, with `sorted()` on the date strings defined by Python's string order.
- `Cli`:
  - `int()` on an argument;
  - the view heuristic;
  - the dispatch of `main`;
  - `Run`, which carries out a command against an engine.

Today's date and the current time are parameters. A printed line is a value of type `Line`, and the methods return the lines the program prints.

Three facts of the code are easy to misread:
- A plain day is written with `f"{day:2d}"` (bin/gcal_cli.py:126), so it is padded with a space, not a zero, though `_get_day_styled`'s docstring (bin/gcal_cli.py:122) calls it a "2-digit day string".
- A single argument 0 sets month 0, which is false in the `if month:` test (bin/gcal_cli.py:303), so it gives the year view of the current year.
- For the same reason, `mycal 0 2024` gives the year view of 2024.

## Model

| member | source | states |
|---|---|---|
| Gregorian.IsoCalendar | bin/gcal_cli.py:94-96 | `isocalendar()` of a valid date: the ISO year is within one of the calendar year, the week is in 1..53, and the ISO weekday is the `date.weekday()` plus one |
| Gregorian.IsoCalendarDecomposes | bin/gcal_cli.py:94-96 | the triple places the day in its ISO year (between the week-1 Mondays of that year and the next), in its week and on its weekday |
| Gregorian.IsoCalendarUnique | bin/gcal_cli.py:94-96 | every ISO decomposition of a valid date equals `IsoCalendar`, so the week number is the ISO 8601 week and no other |
| Gregorian.February2024Week | bin/gcal_cli.py:94-96 | 2024-02-01 is a Thursday in ISO week 5 of 2024 |
| Gregorian.SameWeekSameIsoWeek | bin/gcal_cli.py:186-193 | two valid dates in the same Monday-to-Sunday week have the same ISO year and week, so any day of a row may give the row's week number |
| Format.Pad2Space | bin/gcal_cli.py:126 | `f"{n:2d}"` is two characters below 100: a space and the digit below 10, the two digits otherwise |
| Format.Pad2Zero | bin/gcal_cli.py:125 | `f"{n:02d}"` is two digits below 100 and denotes n |
| Format.DecimalRoundTrip | bin/gcal_cli.py:125 | the digits `str(n)` writes denote n |
| Format.Decimal | bin/gcal_cli.py:125 | `str(n)` of a non-negative integer, as in the `{year}` of the event key: one or more ASCII digits and no leading zero, which denote n (`Format.DecimalRoundTrip`) |
| Format.DateKey | bin/gcal_cli.py:125 | the event key `f"{year}-{month:02d}-{day:02d}"`: `str(year)`, then the month and the day as two zero-padded digits after a dash each; it reads back as its date (`Format.DateKeyRoundTrip`) |
| Format.MonthField | bin/gcal_cli.py:81 | `strptime`'s `%m` group (10 to 12, 01 to 09, or one digit 1 to 9) with the dash after it: a match is a month in 1..12 and leaves a shorter rest |
| Format.DayField | bin/gcal_cli.py:81 | `strptime`'s `%d` group (30 or 31, 10 to 29, 01 to 09, one digit 1 to 9, or a space and a digit 1 to 9), first alternative first: a match is a day in 1..31 and leaves a shorter rest |
| Format.ParseDate | bin/gcal_cli.py:81 | what `strptime(s, "%Y-%m-%d")` accepts is a valid date whose year is the first four characters of s, all digits |
| Format.DateKeyRoundTrip | bin/gcal_cli.py:81 | the event key of any valid date with a four-digit year is accepted by the date check and read back as that date |
| Format.DateKeyOfShortYearRefused | bin/gcal_cli.py:81 | the event key of a date before year 1000 has fewer than four year digits and is refused |
| Format.ParseDateAcceptsShortForm | bin/gcal_cli.py:81 | "2024-2-5" is accepted as 2024-02-05: one-digit months and days match |
| Format.ParseDateRefusesMonth13 | bin/gcal_cli.py:81 | "2024-13-40" is refused |
| Format.ParseDateRefusesFebruary30 | bin/gcal_cli.py:81 | "2024-02-30" is refused: `datetime` rejects a day past the end of the month |
| Format.ParseDateRefusesDay32 | bin/gcal_cli.py:81 | "2024-1-32" is refused: the day group matches "3" and the "2" left over is unconverted data |
| Format.ParseDateAcceptsLeapDay | bin/gcal_cli.py:81 | "2024-02-29" is accepted |
| Format.MonthName | bin/gcal_cli.py:156 | `calendar.month_name[m]` is 3 to 9 letters long |
| Engine.WithEvent | bin/gcal_cli.py:82-84 | appending under a key: the key set gains the key, its list gains the text at the end (or becomes the text alone when new), and every other key keeps its list |
| Engine.CalendarEngine.AddEvent | bin/gcal_cli.py:69-88 | the answer is true exactly when the date check accepts the string; if so the map is `WithEvent` of the old one, otherwise it is unchanged; a map whose keys are all accepted date strings stays so |
| Engine.CalendarEngine.constructor | bin/gcal_cli.py:44-52 | the engine holds the map that was loaded |
| Engine.WeekNumber | bin/gcal_cli.py:94-96 | the week number of a valid date is in 1..53 |
| Engine.WeekNumberIsIsoWeek | bin/gcal_cli.py:94-96 | the week number equals the week of any ISO decomposition of the date |
| Engine.WeekNumberFebruary2024 | bin/gcal_cli.py:94-96 | 2024-02-01 is in week 5 |
| Engine.WithEventHighlights | bin/gcal_cli.py:82-84 | after adding under a key, a date has an event exactly when it had one before or the key is that date's own key |
| Engine.HasEvent | bin/gcal_cli.py:125-130 | the renderer's `date_str in events` on the date's own key `DateKey(y, m, d)`; an add changes it only for the date whose key was added (`Engine.WithEventHighlights`) |
| Engine.AddCanonicalKeyHighlights | bin/gcal_cli.py:69-88 | adding under a date's own key is accepted and marks that date |
| Engine.ShortFormKeyNotHighlighted | bin/gcal_cli.py:81-84 | "2024-2-5" is accepted but stored under a key that is not 2024-02-05's key, so that day stays unmarked |
| Engine.WithEventKeepsKeysDates | bin/gcal_cli.py:69-88 | when every key is an accepted date string, adding an event keeps that true |
| Grid.MonthDaysCalendar | bin/gcal_cli.py:155 | `monthdayscalendar` has 4 to 6 rows of 7 cells, each 0 or a day of the month |
| Grid.MonthDays | bin/gcal_cli.py:155 | `itermonthdays` with Monday first: a 0 for each weekday before day 1, the days 1 to N, then 0s to the end of the week (cell by cell in `Grid.MonthDaysCells`) |
| Grid.MonthDaysCells | bin/gcal_cli.py:155 | the flat day sequence is 7 times the row count long, and cell k holds day k - w + 1 when that is a day of the month, else 0 |
| Grid.Weeks | bin/gcal_cli.py:155 | the flat sequence cut into rows of seven, as `monthdayscalendar` groups it (cell by cell in `Grid.WeeksCells`) |
| Grid.WeeksCells | bin/gcal_cli.py:155 | cutting 7k cells gives k rows of seven, and cell (r, c) is cell 7r + c of the flat sequence |
| Grid.MonthLayout | bin/gcal_cli.py:155 | cell (r, c) holds day `7r + c - w + 1` when that is a day of the month, where w is the weekday of day 1 (Monday = 0), and 0 otherwise |
| Grid.RowCount | bin/gcal_cli.py:155 | the number of week rows is between 4 and 6 |
| Grid.DayLocation | bin/gcal_cli.py:155 | day d is in row `(w + d - 1) / 7`, in the column of its own weekday |
| Grid.DayOnce | bin/gcal_cli.py:155 | day d is in no other cell of the grid |
| Grid.LeadingBlanksAndRowDays | bin/gcal_cli.py:155 | the first row is 0 exactly in the columns before day 1's weekday, and every row holds a day on its Monday or its Sunday |
| Grid.February2024Layout | bin/gcal_cli.py:155 | February 2024 has five rows, day 29 is on the last row's Thursday, and no cell holds 30 |
| Grid.RowSharesIsoWeek | bin/gcal_cli.py:186-193 | any two days of a calendar row have the same ISO week |
| Renderer.DayStyled | bin/gcal_cli.py:112-140 | the day text is `f"{day:2d}"`, two characters |
| Renderer.DayStylePrecedence | bin/gcal_cli.py:128-140 | exactly one style applies: today with an event gets the today-and-event highlight, another day with an event red, today without one the today highlight, any other day plain |
| Renderer.MonthLines | bin/gcal_cli.py:142-210 | what `render_month_lines` returns: title, header, week lines, then blank lines up to 8 (its shape and widths in `Renderer.MonthLinesShape` and `Renderer.MonthLinesWidth`) |
| Renderer.WeekNumberCell | bin/gcal_cli.py:186-194 | the CW cell is three characters: the week of the row's first day as `f"{wk:2d} "`, or three spaces (which rows get which in `Renderer.WeekColumnIsIsoWeek` and `Renderer.WeekColumnBlank`) |
| Renderer.RenderTitle | bin/gcal_cli.py:164-169 | the title loop's line is the bold centred title of the width (`Renderer.TitleCentered`) |
| Renderer.RenderHeader | bin/gcal_cli.py:171-179 | the header code's line is `HeaderLine`, whose text is in `Renderer.HeaderTextValue` |
| Renderer.AppendWeekLines | bin/gcal_cli.py:181-203 | the loop over the week rows appends exactly one `WeekLine` per row, in order |
| Renderer.RenderWeekLine | bin/gcal_cli.py:183-203 | one pass of the row loop builds exactly the row's `WeekLine`: the CW cell when shown, then the day columns |
| Renderer.RenderWeekNumber | bin/gcal_cli.py:186-193 | the loop that stops at the first nonzero day with `break` returns exactly `WeekNumberCell` |
| Renderer.AppendDayColumns | bin/gcal_cli.py:196-201 | the loop over the row's cells appends exactly the row's day columns |
| Renderer.PadLines | bin/gcal_cli.py:205-208 | the `while len(lines) < 8` loop appends exactly 8 - len blank lines of the width, none when there are already 8 or more |
| Renderer.MonthLinesShape | bin/gcal_cli.py:142-210 | a month is always 8 lines: title, header, one week line per calendar row in order, then blank lines of the width |
| Renderer.MonthLinesWidth | bin/gcal_cli.py:158-210 | every line of a month is 24 columns wide with the week column and 21 without |
| Renderer.TitleCentered | bin/gcal_cli.py:164-169 | the title `f"{month_name} {year}"` is preceded by `(width - len) // 2` spaces and followed by spaces to the width, the right padding being the left one or one more |
| Renderer.HeaderTextValue | bin/gcal_cli.py:171-179 | the header is "CW " (when shown) followed by "Mo Tu We Th Fr Sa Su " |
| Renderer.WeekLineText | bin/gcal_cli.py:181-203 | a week line's text is its week column (when shown) followed by its day columns |
| Renderer.RowTextColumns | bin/gcal_cli.py:196-201 | a row of days takes three columns per cell, and cell c sits at columns 3c to 3c + 2 |
| Renderer.DayCellsText | bin/gcal_cli.py:196-201 | the day columns' text is three spaces for an empty cell and `f"{day:2d}"` and a space for a day, whatever their styles |
| Renderer.WeekColumnIsIsoWeek | bin/gcal_cli.py:186-194 | a row's CW cell is `f"{wk:2d} "` for the ISO week of every day of the row, not only its first one |
| Renderer.WeekColumnBlank | bin/gcal_cli.py:186-194 | the CW cell is three spaces exactly when the row holds no day |
| Renderer.CalendarWeekColumnsNotBlank | bin/gcal_cli.py:186-194 | no row of a month's calendar has a blank CW cell |
| Renderer.February2024WeekColumn | bin/gcal_cli.py:186-194 | the first row of February 2024 shows week " 5 " |
| Renderer.RenderMonthLines | bin/gcal_cli.py:142-210 | the looping renderer returns exactly the lines `MonthLines` specifies |
| Renderer.PrintYear | bin/gcal_cli.py:212-238 | the looping year printer prints exactly the lines `YearLines` specifies |
| Renderer.YearLines | bin/gcal_cli.py:212-238 | what `print_year` prints for the first k quarters: the quarters' blocks one after another (its layout in `Renderer.YearLinesLayout`) |
| Renderer.QuarterLines | bin/gcal_cli.py:222-238 | one pass of the quarter loop: the block of months 3q+1 to 3q+3 (its rows in `Renderer.QuarterRowIsMonthLines`) |
| Renderer.BlockLines | bin/gcal_cli.py:228-238 | a block's rows 0 to 7 and then the empty `print()` line (`Renderer.BlockLinesAt`) |
| Renderer.BlockRow | bin/gcal_cli.py:231-236 | row i joins each month's line i and the gutter, or 27 spaces for a month without line i (`Renderer.BlockRowOfThree`) |
| Renderer.PrintQuarter | bin/gcal_cli.py:222-238 | one pass of the quarter loop appends exactly `QuarterLines` of quarter q |
| Renderer.RenderBlock | bin/gcal_cli.py:223-226 | the month loop renders exactly the month lines, with week columns, of each month of the block |
| Renderer.PrintBlock | bin/gcal_cli.py:228-238 | the row loop and the final `print()` append exactly `BlockLines` of the block |
| Renderer.JoinRow | bin/gcal_cli.py:229-236 | the row loop builds exactly `BlockRow` of the block |
| Renderer.YearLinesLayout | bin/gcal_cli.py:219-238 | the year is 36 lines, and line 9q + j is line j of quarter q's block |
| Renderer.BlockLinesAt | bin/gcal_cli.py:228-238 | a block prints 9 lines: its rows 0 to 7, then an empty line |
| Renderer.BlockRowOfThree | bin/gcal_cli.py:229-236 | when all three months have line i, row i is the three lines each followed by three spaces |
| Renderer.QuarterRowIsMonthLines | bin/gcal_cli.py:219-237 | row i of quarter q is line i of months 3q+1, 3q+2 and 3q+3, each followed by three spaces, so the `" " * 27` branch never fires |
| Renderer.YearRowIsMonthLines | bin/gcal_cli.py:212-238 | line 9q + i of the 36-line year is line i of quarter q's three months, each followed by three spaces |
| Renderer.ThreeWidth | bin/gcal_cli.py:229-234 | three lines 24 columns wide, each followed by the three-space gutter, make a row 81 columns wide |
| Renderer.BlockRowWidth | bin/gcal_cli.py:228-237 | in a block of three months whose line i is 24 wide, row i is 81 wide |
| Renderer.QuarterRowWidth | bin/gcal_cli.py:219-237 | every row 0 to 7 of each quarter is 81 columns wide |
| Renderer.YearRowWidth | bin/gcal_cli.py:212-238 | every month row of the 36-line year view is 81 columns wide, so the months stay aligned in their columns |
| Listing.LexLessTransitive | bin/gcal_cli.py:248 | Python's string order is transitive |
| Listing.LexLessTotal | bin/gcal_cli.py:248 | two different strings are ordered one way or the other |
| Listing.LexLessAsymmetric | bin/gcal_cli.py:248 | no two strings are each less than the other |
| Listing.SortedKeys | bin/gcal_cli.py:248 | `sorted(keys)` is strictly increasing and holds each key exactly once |
| Listing.SortedUnique | bin/gcal_cli.py:248 | only one strictly increasing sequence holds a given set of strings |
| Listing.SortKeys | bin/gcal_cli.py:248 | the sorting method returns `SortedKeys` of the keys |
| Listing.InsertSorted | bin/gcal_cli.py:248 | inserting a new string into an increasing sequence keeps it increasing and adds exactly that string |
| Listing.ListEvents | bin/gcal_cli.py:240-250 | `list_events_list` prints exactly `EventListing` |
| Listing.EventListing | bin/gcal_cli.py:240-250 | what `list_events_list` prints: the no-events message, or the bold header and each date's entries in `sorted()` order (`Listing.ListingEmpty`, `Listing.ListingContents`) |
| Listing.AppendDates | bin/gcal_cli.py:248-250 | the loop over the sorted dates appends exactly the entries of the dates, one date after another |
| Listing.AppendEntries | bin/gcal_cli.py:249-250 | the loop over a date's events appends exactly one entry line per event, in the list's order |
| Listing.ListingEmpty | bin/gcal_cli.py:243-247 | the output is the single "No events found." line exactly when there are no events, and otherwise it opens with the bold header |
| Listing.ListingContents | bin/gcal_cli.py:247-250 | after the header, the lines of each date are its events in the order added, each line is the date in cyan and ": " and the event, and the date strings never go down in string order |
| Listing.EntriesOf | bin/gcal_cli.py:248-250 | with each date taken once, the lines of a date are exactly its events in order, and a date not listed has none |
| Listing.EntriesOrdered | bin/gcal_cli.py:248-250 | the entry lines follow the order of the dates |
| Listing.DateKeyOrder | bin/gcal_cli.py:248 | for dates with four-digit years, the string order of event keys is the calendar order of the dates |
| Listing.ShortFormListedLate | bin/gcal_cli.py:81-84 | "2024-2-5" is accepted for 2024-02-05 and stored as written, and the listing puts it after "2024-12-01": with short-form keys the listing is not chronological |
| Listing.DigitsLexLess | bin/gcal_cli.py:248 | equal-length digit strings compare as the numbers they denote |
| Cli.ParseInt | bin/gcal_cli.py:283 | what `int()` accepts is non-empty |
| Cli.ParseIntRoundTrip | bin/gcal_cli.py:281-293 | every integer written by `str()` is read back by `int()` |
| Cli.ParseIntRefusesWord | bin/gcal_cli.py:281-289 | by the modelled `int()`, a word led by neither an ASCII digit nor a sign is refused, so it sets neither year nor month |
| Cli.YearMonth | bin/gcal_cli.py:275-301 | the heuristic parser's year and month: one number above 12 is a year and any other is a month; two numbers are a month and a year on either side of 12; anything else sets neither (`Cli.OneArgument`, `Cli.TwoArguments`, `Cli.ManyArguments`) |
| Cli.Truthy | bin/gcal_cli.py:303 | `if month:`: a month was set and is not 0 |
| Cli.SelectView | bin/gcal_cli.py:303-316 | a month view chosen from arguments has a nonzero month of at most 12, and the year view needs arguments |
| Cli.NoArgumentsShowCurrentMonth | bin/gcal_cli.py:309-313 | with no arguments the current month of the current year is shown |
| Cli.OneArgument | bin/gcal_cli.py:281-316 | one number above 12 is a year and gives its year view; a nonzero number up to 12 gives that month of this year; 0 or a word gives this year's year view |
| Cli.TwoArguments | bin/gcal_cli.py:290-316 | a month (at most 12) and a year (above 12), in either order, give that month, or the year view when the month is 0; two numbers on the same side of 12, or a word, give this year's year view |
| Cli.ManyArguments | bin/gcal_cli.py:275-316 | three or more arguments give the year view of this year |
| Cli.MonthViewSource | bin/gcal_cli.py:275-313 | a month view is of this year or of a year above 12, and with no arguments it is the current month |
| Cli.MonthZeroShowsYear | bin/gcal_cli.py:290-316 | `0 2024` gives the year view of 2024; `2 2024` and `2024 2` give February 2024 |
| Cli.Dispatch | bin/gcal_cli.py:258-275 | an add command has at least two operands and takes its date and text from them |
| Cli.AddBeforeList | bin/gcal_cli.py:258-267 | for every argument list whose first argument is "add", whatever follows (a "list" included): with fewer than two operands the usage, otherwise the add command of the two operands |
| Cli.AddBeforeListExample | bin/gcal_cli.py:258-272 | `mycal add 2024-02-05 dentist list` adds the event, and `mycal add list` gives the usage |
| Cli.ListAnywhere | bin/gcal_cli.py:269-272 | otherwise "list" anywhere in the arguments lists the events |
| Cli.ShowOtherwise | bin/gcal_cli.py:258-275 | with neither "add" first nor "list" anywhere, the view is the one the heuristic picks from the arguments after the program name |
| Cli.AddMessage | bin/gcal_cli.py:263-266 | the green "Event added for" line with the date and text when the date is accepted, else the red invalid-date line |
| Cli.Renderable | bin/gcal_cli.py:303-316 | the views the renderer draws without raising: a month in 1..12, for `calendar`, and a year in 1..9999, for `datetime.date` |
| Cli.Run | bin/gcal_cli.py:253-316 | for each command: add appends the event when the date is accepted and prints the green confirmation, and otherwise prints the red error; add without operands prints the usage; list prints the listing; a view prints its month or year lines, or nothing when the renderer raises; only add changes the events |

## Left out

- Persistence: `_load_events` and `_save_events` read and write the JSON file. The constructor takes the loaded map, and `AddEvent` does not save it.
- `get_events` returns the map. The model reads the `events` field directly.
- The ANSI escape bytes and `print`. Styles are abstract tokens, and a line is returned instead of printed.
- The clock: `datetime.date.today()` and `datetime.datetime.now()` are a single `today` parameter. The program reads the clock several times, and the reads can fall on either side of midnight; the model does not capture this.
- `sys.exit(1)` after the usage message, and the exit status in general.
- Errors the renderer raises are not modelled as tracebacks. A month outside 1..12 or a year outside 1..9999 makes `calendar` or `datetime` raise; `Cli.Run` returns None then.
- `Cli.ParseInt`: does not model `int()`'s surrounding whitespace, its underscores between digits, or its non-ASCII digits.
- `Cli.ParseIntRefusesWord`: follows `Cli.ParseInt`, so words that Python's `int()` accepts though they are led by neither an ASCII digit nor a sign (`" 5"`, a non-ASCII digit) are refused in the model.
- `Format.ParseDate`: does not model `strptime`'s non-ASCII digits, nor its locale, which does not affect this numeric pattern.
- `Format.MonthName` gives the English names only; other locales are not modelled.
- `argparse` is imported but never used.
