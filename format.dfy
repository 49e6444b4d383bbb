/**
 The text formats the calendar prints and reads: decimal numbers as
 `str(n)` / `f"{n}"` writes them, the two-column fields `f"{n:2d}"` (space
 padded) and `f"{n:02d}"` (zero padded), the English month names of
 `calendar.month_name`, the event key `f"{year}-{month:02d}-{day:02d}"`, and
 the date check `datetime.strptime(s, "%Y-%m-%d")`.
 */
module Format {
  import opened Wrappers
  import opened Gregorian

  predicate IsDigit(c: char) {
    '0' <= c <= '9'
  }

  predicate AllDigits(s: string) {
    forall i :: 0 <= i < |s| ==> IsDigit(s[i])
  }

  function DigitValue(c: char): (v: int)
    requires IsDigit(c)
    ensures 0 <= v < 10
  {
    c as int - '0' as int
  }

  function Digit(k: int): (c: char)
    requires 0 <= k < 10
    ensures IsDigit(c) && DigitValue(c) == k
  {
    ('0' as int + k) as char
  }

  /** The number a string of decimal digits denotes (leading zeros allowed). */
  function DecimalValue(s: string): (v: nat)
    requires AllDigits(s)
  {
    if s == [] then 0 else 10 * DecimalValue(s[..|s| - 1]) + DigitValue(s[|s| - 1])
  }

  /** `str(n)` of a non-negative integer: its digits, no leading zero. */
  function Decimal(n: nat): (s: string)
    ensures |s| >= 1 && AllDigits(s)
    ensures |s| > 1 ==> s[0] != '0'
  {
    if n < 10 then [Digit(n)] else Decimal(n / 10) + [Digit(n % 10)]
  }

  /** `n` is written back as `Decimal(n)`, read as the number it denotes. */
  lemma {:induction false} DecimalRoundTrip(n: nat)
    ensures DecimalValue(Decimal(n)) == n
  {
    if n >= 10 {
      var s := Decimal(n);
      assert s[..|s| - 1] == Decimal(n / 10);
      DecimalRoundTrip(n / 10);
    }
  }

  /** The number of digits of `Decimal(n)` for numbers below 10000. */
  lemma {:induction false} DecimalLength(n: nat)
    ensures n < 10 ==> |Decimal(n)| == 1
    ensures 10 <= n < 100 ==> |Decimal(n)| == 2
    ensures 100 <= n < 1000 ==> |Decimal(n)| == 3
    ensures 1000 <= n < 10000 ==> |Decimal(n)| == 4
    ensures n < 10000 ==> |Decimal(n)| <= 4
  {
    if n >= 10 {
      DecimalLength(n / 10);
    }
  }

  /** `" " * k`: k spaces, none when k is zero or negative. */
  function Spaces(k: int): (s: string)
    ensures |s| == if k <= 0 then 0 else k
    ensures forall i :: 0 <= i < |s| ==> s[i] == ' '
  {
    if k <= 0 then "" else seq(k, _ => ' ')
  }

  /** `f"{n:2d}"`: n right-aligned in a field of at least two, filled with spaces. */
  function Pad2Space(n: nat): (s: string)
    ensures n < 100 ==> |s| == 2
    ensures n < 10 ==> s == " " + Decimal(n)
    ensures n >= 10 ==> s == Decimal(n)
  {
    DecimalLength(n);
    Spaces(2 - |Decimal(n)|) + Decimal(n)
  }

  /** `f"{n:02d}"`: n right-aligned in a field of at least two, filled with zeros. */
  function Pad2Zero(n: nat): (s: string)
    ensures n < 100 ==> |s| == 2
    ensures AllDigits(s) && DecimalValue(s) == n
  {
    DecimalLength(n);
    DecimalRoundTrip(n);
    if n < 10 then
      var s := "0" + Decimal(n);
      assert s[..|s| - 1] == "0";
      s
    else Decimal(n)
  }

  /** `calendar.month_name[m]` in the C/English locale. */
  function MonthName(m: int): (name: string)
    requires 1 <= m <= 12
    ensures 3 <= |name| <= 9
  {
    match m
    case 1 => "January" case 2 => "February" case 3 => "March" case 4 => "April"
    case 5 => "May" case 6 => "June" case 7 => "July" case 8 => "August"
    case 9 => "September" case 10 => "October" case 11 => "November" case _ => "December"
  }

  /** The event-map key of a date: `f"{year}-{month:02d}-{day:02d}"`. */
  function DateKey(y: nat, m: nat, d: nat): string {
    Decimal(y) + "-" + Pad2Zero(m) + "-" + Pad2Zero(d)
  }

  /** A field the date pattern matched, and the text after it. */
  datatype Field = Field(value: int, rest: string)

  /**
   The `%m` group `1[0-2]|0[1-9]|[1-9]` followed by the literal '-': the regex
   engine backtracks over the alternatives until one is followed by '-', and
   at most one alternative can be.
   */
  function MonthField(s: string): (r: Option<Field>)
    ensures r.Some? ==> 1 <= r.value.value <= 12 && |r.value.rest| < |s|
  {
    if |s| >= 3 && s[0] == '1' && '0' <= s[1] <= '2' && s[2] == '-' then
      Some(Field(10 + DigitValue(s[1]), s[3..]))
    else if |s| >= 3 && s[0] == '0' && '1' <= s[1] <= '9' && s[2] == '-' then
      Some(Field(DigitValue(s[1]), s[3..]))
    else if |s| >= 2 && '1' <= s[0] <= '9' && s[1] == '-' then
      Some(Field(DigitValue(s[0]), s[2..]))
    else None
  }

  /**
   The `%d` group `3[01]|[12]\d|0[1-9]|[1-9]| [1-9]`, which ends the pattern:
   the first alternative that matches is taken, whatever follows it.
   */
  function DayField(s: string): (r: Option<Field>)
    ensures r.Some? ==> 1 <= r.value.value <= 31 && |r.value.rest| < |s|
  {
    if |s| >= 2 && s[0] == '3' && (s[1] == '0' || s[1] == '1') then
      Some(Field(30 + DigitValue(s[1]), s[2..]))
    else if |s| >= 2 && (s[0] == '1' || s[0] == '2') && IsDigit(s[1]) then
      Some(Field(10 * DigitValue(s[0]) + DigitValue(s[1]), s[2..]))
    else if |s| >= 2 && s[0] == '0' && '1' <= s[1] <= '9' then
      Some(Field(DigitValue(s[1]), s[2..]))
    else if |s| >= 1 && '1' <= s[0] <= '9' then
      Some(Field(DigitValue(s[0]), s[1..]))
    else if |s| >= 2 && s[0] == ' ' && '1' <= s[1] <= '9' then
      Some(Field(DigitValue(s[1]), s[2..]))
    else None
  }

  /**
   `datetime.strptime(s, "%Y-%m-%d")`: four digits of year (`\d\d\d\d`), '-',
   the month group, '-', the day group; text left over is refused
   ("unconverted data remains"), and so is a date `datetime` rejects
   (year 0, a day past the end of the month). None stands for the ValueError.
   */
  function ParseDate(s: string): (r: Option<Date>)
    ensures r.Some? ==> ValidDate(r.value.year, r.value.month, r.value.day)
    ensures r.Some? ==> |s| >= 8 && AllDigits(s[..4]) && r.value.year == DecimalValue(s[..4])
  {
    if |s| < 5 || !AllDigits(s[..4]) || s[4] != '-' then None
    else
      match MonthField(s[5..])
      case None => None
      case Some(month) =>
        match DayField(month.rest)
        case None => None
        case Some(day) =>
          var year := DecimalValue(s[..4]);
          if day.rest != [] then None
          else if ValidDate(year, month.value, day.value) then Some(Date(year, month.value, day.value))
          else None
  }

  /**
   Every event key of a date with a four-digit year is accepted by the date
   check and read back as that date.
   */
  lemma DateKeyRoundTrip(y: int, m: int, d: int)
    requires ValidDate(y, m, d) && 1000 <= y
    ensures ParseDate(DateKey(y, m, d)) == Some(Date(y, m, d))
  {
    DecimalLength(y);
    DecimalRoundTrip(y);
    var year, month, day := Decimal(y), Pad2Zero(m), Pad2Zero(d);
    var s := year + "-" + month + "-" + day;
    assert s[..4] == year;
    assert s[4] == '-';
    assert s[5..] == month + "-" + day;
    MonthFieldOfKey(m, day);
    DayFieldOfKey(d);
  }

  /**
   The event key of a date before year 1000 has fewer than four year digits,
   so the date check refuses it: no event can be added under that key.
   */
  lemma DateKeyOfShortYearRefused(y: int, m: int, d: int)
    requires ValidDate(y, m, d) && y < 1000
    ensures ParseDate(DateKey(y, m, d)) == None
  {
    DecimalLength(y);
    var s := DateKey(y, m, d);
    var k := |Decimal(y)|;
    assert s[k] == '-' && k < 4;
    assert s[..4][k] == '-';
  }

  /** The zero-padded month of an event key is read back by the month group. */
  lemma MonthFieldOfKey(m: int, rest: string)
    requires 1 <= m <= 12
    ensures MonthField(Pad2Zero(m) + "-" + rest) == Some(Field(m, rest))
  {
    var s := Pad2Zero(m) + "-" + rest;
    TwoDigitsValue(Pad2Zero(m), m);
    assert s[3..] == rest;
  }

  /** The zero-padded day of an event key is read back by the day group, with nothing left over. */
  lemma DayFieldOfKey(d: int)
    requires 1 <= d <= 31
    ensures DayField(Pad2Zero(d)) == Some(Field(d, ""))
  {
    TwoDigitsValue(Pad2Zero(d), d);
  }

  /** The value of a two-digit string, digit by digit. */
  lemma TwoDigitsValue(s: string, n: int)
    requires |s| == 2 && AllDigits(s) && DecimalValue(s) == n
    ensures n == 10 * DigitValue(s[0]) + DigitValue(s[1])
  {
    var first := s[..1];
    assert first[..0] == [] && first[0] == s[0];
    assert DecimalValue(first) == DigitValue(s[0]);
  }

  /** The date check refuses a month out of range. */
  lemma ParseDateRefusesMonth13()
    ensures ParseDate("2024-13-40") == None
  {
    assert "2024-13-40"[5..] == "13-40";
  }

  /** The date check refuses a day past the end of the month. */
  lemma ParseDateRefusesFebruary30()
    ensures ParseDate("2024-02-30") == None
  {
    var s := "2024-02-30";
    assert s[5..] == "02-30";
    assert MonthField("02-30") == Some(Field(2, "30"));
    assert DayField("30") == Some(Field(30, ""));
  }

  /** A day "32" matches only its "3", and the "2" left over is refused. */
  lemma ParseDateRefusesDay32()
    ensures ParseDate("2024-1-32") == None
  {
    var s := "2024-1-32";
    assert s[5..] == "1-32";
    assert MonthField("1-32") == Some(Field(1, "32"));
    assert DayField("32") == Some(Field(3, "2"));
  }

  /** The year digits "2024" denote 2024. */
  lemma Year2024()
    ensures AllDigits("2024") && DecimalValue("2024") == 2024
  {
    assert "2024"[..3] == "202" && "202"[..2] == "20" && "20"[..1] == "2" && "2"[..0] == "";
  }

  /** The date check accepts months and days written with one digit. */
  lemma ParseDateAcceptsShortForm()
    ensures ParseDate("2024-2-5") == Some(Date(2024, 2, 5))
  {
    var s := "2024-2-5";
    assert s[..4] == "2024";
    Year2024();
    assert s[5..] == "2-5";
    assert MonthField("2-5") == Some(Field(2, "5"));
    assert DayField("5") == Some(Field(5, ""));
  }

  /** The date check accepts the leap day of a leap year. */
  lemma ParseDateAcceptsLeapDay()
    ensures ParseDate("2024-02-29") == Some(Date(2024, 2, 29))
  {
    var s := "2024-02-29";
    assert s[..4] == "2024";
    Year2024();
    assert s[5..] == "02-29";
    assert MonthField("02-29") == Some(Field(2, "29"));
    assert DayField("29") == Some(Field(29, ""));
  }
}
