/**
 `CalendarRenderer.list_events_list`: every event, date by date in the order
 `sorted()` puts the date strings (code point by code point, a prefix first),
 each date's events in the order they were added; or one message when there
 are none.
 */
module Listing {
  import opened Wrappers
  import opened Gregorian
  import opened Format
  import opened Styled
  import opened Engine

  // ---------------------------------------------------------------------
  // The order `sorted()` uses on strings

  /** `a < b` on Python strings: the first differing character decides, and a proper prefix comes first. */
  predicate LexLess(a: string, b: string)
    decreases |a|
  {
    if a == [] then b != []
    else if b == [] then false
    else if a[0] != b[0] then a[0] < b[0]
    else LexLess(a[1..], b[1..])
  }

  lemma {:induction false} LexLessIrreflexive(a: string)
    ensures !LexLess(a, a)
    decreases |a|
  {
    if a != [] {
      LexLessIrreflexive(a[1..]);
    }
  }

  lemma {:induction false} LexLessTransitive(a: string, b: string, c: string)
    requires LexLess(a, b) && LexLess(b, c)
    ensures LexLess(a, c)
    decreases |a|
  {
    if a != [] && b != [] && c != [] && a[0] == b[0] == c[0] {
      LexLessTransitive(a[1..], b[1..], c[1..]);
    }
  }

  /** Two different strings are ordered one way or the other. */
  lemma {:induction false} LexLessTotal(a: string, b: string)
    requires a != b
    ensures LexLess(a, b) || LexLess(b, a)
    decreases |a|
  {
    if a != [] && b != [] && a[0] == b[0] {
      assert a == [a[0]] + a[1..] && b == [b[0]] + b[1..];
      LexLessTotal(a[1..], b[1..]);
    }
  }

  lemma {:induction false} LexLessAsymmetric(a: string, b: string)
    requires LexLess(a, b)
    ensures !LexLess(b, a)
  {
    if LexLess(b, a) {
      LexLessTransitive(a, b, a);
      LexLessIrreflexive(a);
    }
  }

  /** Strings with a common first part of the same length compare as their first parts, then as the rest. */
  lemma {:induction false} LexLessAppend(a: string, r: string, b: string, s: string)
    requires |a| == |b|
    ensures LexLess(a + r, b + s) <==> LexLess(a, b) || (a == b && LexLess(r, s))
    decreases |a|
  {
    if a != [] {
      assert (a + r)[0] == a[0] && (b + s)[0] == b[0];
      assert (a + r)[1..] == a[1..] + r && (b + s)[1..] == b[1..] + s;
      LexLessAppend(a[1..], r, b[1..], s);
      if a[0] == b[0] && a[1..] == b[1..] {
        assert a == [a[0]] + a[1..] && b == [b[0]] + b[1..];
      }
    } else {
      assert a + r == r && b + s == s;
    }
  }

  /** Digit strings of the same length compare as the numbers they denote. */
  lemma {:induction false} DigitsLexLess(a: string, b: string)
    requires |a| == |b| && AllDigits(a) && AllDigits(b)
    ensures LexLess(a, b) <==> DecimalValue(a) < DecimalValue(b)
    decreases |a|
  {
    if a == [] {
    } else {
      var a', b' := a[..|a| - 1], b[..|b| - 1];
      var x, y := a[|a| - 1], b[|b| - 1];
      assert a == a' + [x] && b == b' + [y];
      DigitsLexLess(a', b');
      DigitsLexLess(b', a');
      LexLessAppend(a', [x], b', [y]);
      if a' != b' {
        LexLessTotal(a', b');
      }
    }
  }

  // ---------------------------------------------------------------------
  // Sorted keys

  /** Every element is before every later one: sorted and without repeats. */
  predicate StrictlySorted(s: seq<string>) {
    forall i, j :: 0 <= i < j < |s| ==> LexLess(s[i], s[j])
  }

  /** k is the smallest string of the set. */
  predicate IsLeast(k: string, keys: set<string>) {
    k in keys && forall j :: j in keys && j != k ==> LexLess(k, j)
  }

  /** A non-empty set of strings has a smallest one. */
  lemma {:induction false} LeastExists(keys: set<string>)
    requires keys != {}
    ensures exists k :: IsLeast(k, keys)
    decreases |keys|
  {
    var x :| x in keys;
    if keys != {x} {
      var rest := keys - {x};
      LeastExists(rest);
      var m :| IsLeast(m, rest);
      if LexLess(x, m) {
        forall j | j in keys && j != x
          ensures LexLess(x, j)
        {
          if j != m {
            LexLessTransitive(x, m, j);
          }
        }
        assert IsLeast(x, keys);
      } else {
        LexLessTotal(x, m);
        assert IsLeast(m, keys);
      }
    } else {
      assert IsLeast(x, keys);
    }
  }

  /** `sorted(keys)`: the set's strings in increasing order, each once. */
  ghost function SortedKeys(keys: set<string>): (s: seq<string>)
    ensures StrictlySorted(s)
    ensures forall k :: k in s <==> k in keys
    ensures |s| == |keys|
    decreases |keys|
  {
    if keys == {} then []
    else
      LeastExists(keys);
      var k :| IsLeast(k, keys);
      var rest := SortedKeys(keys - {k});
      LeastThenRest(k, keys, rest);
      [k] + rest
  }

  /** The least string followed by the others in order is in order. */
  lemma LeastThenRest(k: string, keys: set<string>, rest: seq<string>)
    requires IsLeast(k, keys) && StrictlySorted(rest)
    requires forall j :: j in rest <==> j in keys - {k}
    ensures StrictlySorted([k] + rest)
    ensures forall j :: j in [k] + rest <==> j in keys
  {
    assert forall j :: 0 <= j < |rest| ==> rest[j] in rest;
  }

  /** There is only one strictly sorted sequence of a given set of strings. */
  lemma {:induction false} SortedUnique(a: seq<string>, b: seq<string>)
    requires StrictlySorted(a) && StrictlySorted(b)
    requires forall k :: k in a <==> k in b
    ensures a == b
    decreases |a|
  {
    if a != [] {
      assert a[0] in b;
    }
    if b != [] {
      assert b[0] in a;
    }
    if a != [] {
      if a[0] != b[0] {
        assert b[0] in a && a[0] in b;
        var i :| 0 <= i < |a| && a[i] == b[0];
        var j :| 0 <= j < |b| && b[j] == a[0];
        assert LexLess(a[0], b[0]);
        assert LexLess(b[0], a[0]);
        LexLessAsymmetric(a[0], b[0]);
      }
      forall k
        ensures k in a[1..] <==> k in b[1..]
      {
        if k in a[1..] {
          var i :| 1 <= i < |a| && a[i] == k;
          LexLessIrreflexive(a[0]);
          assert k != a[0];
          assert k in b;
        }
        if k in b[1..] {
          var i :| 1 <= i < |b| && b[i] == k;
          LexLessIrreflexive(b[0]);
          assert k != b[0];
          assert k in a;
        }
      }
      SortedUnique(a[1..], b[1..]);
      assert a == [a[0]] + a[1..] && b == [b[0]] + b[1..];
    }
  }

  /** `sorted(events.keys())`: inserts each key into a sorted list of the keys taken so far. */
  method SortKeys(keys: set<string>) returns (sorted: seq<string>)
    ensures sorted == SortedKeys(keys)
  {
    sorted := [];
    var remaining := keys;
    while remaining != {}
      invariant remaining <= keys && StrictlySorted(sorted)
      invariant forall k :: k in sorted <==> k in keys && k !in remaining
      decreases |remaining|
    {
      var k :| k in remaining;
      sorted := InsertSorted(sorted, k);
      remaining := remaining - {k};
    }
    SortedUnique(sorted, SortedKeys(keys));
  }

  /** Inserts a new string into a strictly sorted sequence, before the first larger one. */
  method InsertSorted(s: seq<string>, k: string) returns (r: seq<string>)
    requires StrictlySorted(s) && k !in s
    ensures StrictlySorted(r)
    ensures forall j :: j in r <==> j in s || j == k
  {
    var i := 0;
    while i < |s| && LexLess(s[i], k)
      invariant 0 <= i <= |s|
      invariant forall j :: 0 <= j < i ==> LexLess(s[j], k)
    {
      i := i + 1;
    }
    if i < |s| {
      LexLessTotal(s[i], k);
    }
    r := s[..i] + [k] + s[i..];
    forall a, b | 0 <= a < b < |r|
      ensures LexLess(r[a], r[b])
    {
      if a < i && b == i {
      } else if a == i && b > i {
        if b - 1 > i {
          LexLessTransitive(k, s[i], s[b - 1]);
        }
      } else if a < i && b > i {
      } else {
      }
    }
    assert forall j :: j in r <==> j in s[..i] || j == k || j in s[i..];
    assert s == s[..i] + s[i..];
  }

  // ---------------------------------------------------------------------
  // The listing

  /** `f"{CYAN}{date_str}{RESET}: {event}"`. */
  function EntryLine(key: string, event: string): Line {
    [Span(key, Cyan), Span(": " + event, Plain)]
  }

  /** The lines of one date: one per event, in the list's order. */
  function EntryLines(key: string, events: seq<string>): seq<Line> {
    seq(|events|, j requires 0 <= j < |events| => EntryLine(key, events[j]))
  }

  /** The lines of the dates `keys`, one date after another. */
  function Entries(events: EventMap, keys: seq<string>): seq<Line>
    requires forall i :: 0 <= i < |keys| ==> keys[i] in events
  {
    if keys == [] then []
    else Entries(events, keys[..|keys| - 1]) + EntryLines(keys[|keys| - 1], events[keys[|keys| - 1]])
  }

  const NO_EVENTS := "No events found."
  const LIST_HEADER := "Upcoming Events:"

  /** What `list_events_list` prints. */
  ghost function EventListing(events: EventMap): seq<Line> {
    if |events| == 0 then [[Span(NO_EVENTS, Plain)]]
    else [[Span(LIST_HEADER, Bold)]] + Entries(events, SortedKeys(events.Keys))
  }

  /** `list_events_list`: the message, or the header and then the date and event loops. */
  method ListEvents(events: EventMap) returns (lines: seq<Line>)
    ensures lines == EventListing(events)
  {
    if |events| == 0 {
      return [[Span(NO_EVENTS, Plain)]];
    }
    var keys := SortKeys(events.Keys);
    lines := AppendDates([[Span(LIST_HEADER, Bold)]], events, keys);
  }

  /** The outer loop: the lines of each date, in the order of `keys`. */
  method AppendDates(lines0: seq<Line>, events: EventMap, keys: seq<string>) returns (lines: seq<Line>)
    requires forall i :: 0 <= i < |keys| ==> keys[i] in events
    ensures lines == lines0 + Entries(events, keys)
  {
    lines := lines0;
    for i := 0 to |keys|
      invariant lines == lines0 + Entries(events, keys[..i])
    {
      var dateStr := keys[i];
      lines := AppendEntries(lines, dateStr, events[dateStr]);
      assert keys[..i + 1][..i] == keys[..i];
    }
    assert keys[..|keys|] == keys;
  }

  /** The inner loop: one line per event of the date. */
  method AppendEntries(lines0: seq<Line>, dateStr: string, list: seq<string>) returns (lines: seq<Line>)
    ensures lines == lines0 + EntryLines(dateStr, list)
  {
    lines := lines0;
    for j := 0 to |list|
      invariant lines == lines0 + EntryLines(dateStr, list[..j])
    {
      lines := lines + [EntryLine(dateStr, list[j])];
    }
    assert list[..|list|] == list;
  }

  // ---------------------------------------------------------------------
  // What the listing shows

  /** The listing is the single message exactly when there are no events; otherwise it opens with the header. */
  lemma ListingEmpty(events: EventMap)
    ensures EventListing(events) == [[Span(NO_EVENTS, Plain)]] <==> |events| == 0
    ensures |events| != 0 ==> |EventListing(events)| >= 1 && EventListing(events)[0] == [Span(LIST_HEADER, Bold)]
  {
    if |events| != 0 {
      assert EventListing(events)[0] == [Span(LIST_HEADER, Bold)];
      assert [Span(LIST_HEADER, Bold)][0].text != [Span(NO_EVENTS, Plain)][0].text;
    }
  }

  /** The date a listing line starts with. */
  function KeyOf(line: Line): string {
    if line == [] then "" else line[0].text
  }

  /** The listing lines of one date: those whose first span is that date in the date colour. */
  function LinesOf(lines: seq<Line>, key: string): seq<Line> {
    if lines == [] then []
    else
      var last := lines[|lines| - 1];
      LinesOf(lines[..|lines| - 1], key) + (if last != [] && last[0] == Span(key, Cyan) then [last] else [])
  }

  lemma {:induction false} LinesOfAppend(a: seq<Line>, b: seq<Line>, key: string)
    ensures LinesOf(a + b, key) == LinesOf(a, key) + LinesOf(b, key)
    decreases |b|
  {
    if b == [] {
      assert a + b == a;
    } else {
      var b' := b[..|b| - 1];
      assert (a + b)[..|a + b| - 1] == a + b';
      LinesOfAppend(a, b', key);
    }
  }

  /** The lines of one date's events belong to that date and to no other. */
  lemma {:induction false} EntryLinesOf(k: string, list: seq<string>, key: string)
    ensures LinesOf(EntryLines(k, list), key) == if k == key then EntryLines(k, list) else []
    decreases |list|
  {
    if list != [] {
      var front := list[..|list| - 1];
      assert EntryLines(k, list)[..|list| - 1] == EntryLines(k, front);
      EntryLinesOf(k, front, key);
    }
  }

  /** Every line of the dates `keys` is an event line of one of them. */
  lemma {:induction false} EntriesShape(events: EventMap, keys: seq<string>)
    requires forall i :: 0 <= i < |keys| ==> keys[i] in events
    ensures forall i :: 0 <= i < |Entries(events, keys)| ==>
      var line := Entries(events, keys)[i];
      |line| == 2 && line[0] == Span(KeyOf(line), Cyan) && KeyOf(line) in keys
    decreases |keys|
  {
    if keys != [] {
      var front, last := keys[..|keys| - 1], keys[|keys| - 1];
      EntriesShape(events, front);
      var a, b := Entries(events, front), EntryLines(last, events[last]);
      forall i | 0 <= i < |a + b|
        ensures var line := (a + b)[i]; |line| == 2 && line[0] == Span(KeyOf(line), Cyan) && KeyOf(line) in keys
      {
        if i < |a| {
          assert (a + b)[i] == a[i];
          assert KeyOf(a[i]) in front;
        } else {
          assert (a + b)[i] == b[i - |a|];
        }
      }
    }
  }

  /** With each date listed once, the lines of a date are its events, in order. */
  lemma {:induction false} EntriesOf(events: EventMap, keys: seq<string>, key: string)
    requires forall i :: 0 <= i < |keys| ==> keys[i] in events
    requires StrictlySorted(keys)
    ensures LinesOf(Entries(events, keys), key) == if key in keys then EntryLines(key, events[key]) else []
    decreases |keys|
  {
    if keys != [] {
      var front, last := keys[..|keys| - 1], keys[|keys| - 1];
      EntriesOf(events, front, key);
      LinesOfAppend(Entries(events, front), EntryLines(last, events[last]), key);
      EntryLinesOf(last, events[last], key);
      if key == last {
        LexLessIrreflexive(last);
        assert key !in front;
      }
      assert key in keys <==> key in front || key == last;
    }
  }

  /** Line a's date is not after line b's. */
  predicate DateNotAfter(a: Line, b: Line) {
    KeyOf(a) == KeyOf(b) || LexLess(KeyOf(a), KeyOf(b))
  }

  /** The dates of the lines never go down. */
  predicate DatesAscending(lines: seq<Line>) {
    forall i, j :: 0 <= i < j < |lines| ==> DateNotAfter(lines[i], lines[j])
  }

  lemma {:induction false} EntriesOrdered(events: EventMap, keys: seq<string>)
    requires forall i :: 0 <= i < |keys| ==> keys[i] in events
    requires StrictlySorted(keys)
    ensures DatesAscending(Entries(events, keys))
    decreases |keys|
  {
    if keys != [] {
      var front, last := keys[..|keys| - 1], keys[|keys| - 1];
      EntriesOrdered(events, front);
      EntriesShape(events, front);
      var a, b := Entries(events, front), EntryLines(last, events[last]);
      forall i, j | 0 <= i < j < |a + b|
        ensures DateNotAfter((a + b)[i], (a + b)[j])
      {
        if j < |a| {
          assert (a + b)[i] == a[i] && (a + b)[j] == a[j];
        } else if i < |a| {
          assert (a + b)[i] == a[i] && (a + b)[j] == b[j - |a|];
          assert KeyOf(b[j - |a|]) == last;
          var k :| 0 <= k < |front| && front[k] == KeyOf(a[i]);
          assert LexLess(keys[k], keys[|keys| - 1]);
        } else {
          assert (a + b)[i] == b[i - |a|] && (a + b)[j] == b[j - |a|];
          assert KeyOf(b[i - |a|]) == last == KeyOf(b[j - |a|]);
        }
      }
    }
  }

  /**
   Below the header, the listing holds for each date exactly its events, in
   the order they were added; every line is a date in the date colour and an
   event, and the dates run in `sorted()` order.
   */
  lemma ListingContents(events: EventMap, key: string)
    requires |events| != 0
    ensures var body := EventListing(events)[1..];
      && LinesOf(body, key) == (if key in events then EntryLines(key, events[key]) else [])
      && (forall i :: 0 <= i < |body| ==>
            |body[i]| == 2 && body[i][0] == Span(KeyOf(body[i]), Cyan) && KeyOf(body[i]) in events)
      && DatesAscending(body)
  {
    var keys := SortedKeys(events.Keys);
    assert EventListing(events)[1..] == Entries(events, keys);
    EntriesOf(events, keys, key);
    EntriesShape(events, keys);
    EntriesOrdered(events, keys);
  }

  // ---------------------------------------------------------------------
  // The dates' keys sort chronologically

  /** Date a is before date b on the calendar. */
  predicate DateBefore(a: Date, b: Date) {
    a.year < b.year
    || (a.year == b.year && a.month < b.month)
    || (a.year == b.year && a.month == b.month && a.day < b.day)
  }

  /**
   For dates with four-digit years, `sorted()` order on the canonical keys
   `YYYY-MM-DD` is the order of the dates, so a listing whose keys are all
   canonical is chronological (ShortFormListedLate shows a key that is not).
   */
  lemma DateKeyOrder(a: Date, b: Date)
    requires ValidDate(a.year, a.month, a.day) && ValidDate(b.year, b.month, b.day)
    requires 1000 <= a.year && 1000 <= b.year
    ensures LexLess(DateKey(a.year, a.month, a.day), DateKey(b.year, b.month, b.day)) <==> DateBefore(a, b)
  {
    DecimalLength(a.year);
    DecimalLength(b.year);
    DecimalRoundTrip(a.year);
    DecimalRoundTrip(b.year);
    var ma, da := Pad2Zero(a.month), Pad2Zero(a.day);
    var mb, db := Pad2Zero(b.month), Pad2Zero(b.day);
    DateKeySplit(a.year, a.month, a.day);
    DateKeySplit(b.year, b.month, b.day);
    FieldLexLess(Decimal(a.year), ma + ("-" + da), Decimal(b.year), mb + ("-" + db));
    FieldLexLess(ma, da, mb, db);
    DigitsLexLess(da, db);
  }

  /**
   `add` accepts the short form "2024-2-5" for 2024-02-05 and stores it as
   written; `sorted()` then lists it after "2024-12-01", though it is the
   earlier date.
   */
  lemma ShortFormListedLate()
    ensures var events := map["2024-12-01" := ["review"], "2024-2-5" := ["dentist"]];
      && ParseDate("2024-2-5") == Some(Date(2024, 2, 5))
      && DateBefore(Date(2024, 2, 5), Date(2024, 12, 1))
      && EventListing(events)
         == [[Span(LIST_HEADER, Bold)], EntryLine("2024-12-01", "review"), EntryLine("2024-2-5", "dentist")]
  {
    ParseDateAcceptsShortForm();
    var events := map["2024-12-01" := ["review"], "2024-2-5" := ["dentist"]];
    TwoKeysSorted(events, "2024-12-01", "2024-2-5");
  }

  /** December's canonical key sorts before the short-form key of February. */
  lemma DecemberBeforeShortForm()
    ensures LexLess("2024-12-01", "2024-2-5")
  {
    var a, b := "2024-12-01", "2024-2-5";
    assert a[..5] == b[..5] && a[5] < b[5];
    assert LexLess(a[5..], b[5..]);
    LexLessAppend(a[..5], a[5..], b[..5], b[5..]);
    assert a[..5] + a[5..] == a && b[..5] + b[5..] == b;
  }

  /** A map of two keys, one event each, is listed in the keys' order. */
  lemma TwoKeysSorted(events: EventMap, j: string, k: string)
    requires j == "2024-12-01" && k == "2024-2-5"
    requires events == map[j := ["review"], k := ["dentist"]]
    ensures EventListing(events) == [[Span(LIST_HEADER, Bold)], EntryLine(j, "review"), EntryLine(k, "dentist")]
  {
    TwoKeysOrder(events, j, k);
    EntriesOfTwo(events, j, k);
    assert EntryLines(j, events[j]) == [EntryLine(j, "review")];
    assert EntryLines(k, events[k]) == [EntryLine(k, "dentist")];
  }

  /** The two keys, December's first, are `sorted()` of the map's keys. */
  lemma TwoKeysOrder(events: EventMap, j: string, k: string)
    requires j == "2024-12-01" && k == "2024-2-5"
    requires events.Keys == {j, k}
    ensures SortedKeys(events.Keys) == [j, k]
  {
    DecemberBeforeShortForm();
    var keys := [j, k];
    assert StrictlySorted(keys);
    SortedUnique(SortedKeys(events.Keys), keys);
  }

  /** The lines of two dates: the first date's, then the second's. */
  lemma EntriesOfTwo(events: EventMap, j: string, k: string)
    requires j in events && k in events
    ensures Entries(events, [j, k]) == EntryLines(j, events[j]) + EntryLines(k, events[k])
  {
    var two := [j, k];
    assert two[..1] == [j] && two[1] == k;
    assert Entries(events, two) == Entries(events, [j]) + EntryLines(k, events[k]);
    assert [j][..0] == [] && [j][0] == j;
    assert Entries(events, [j]) == Entries(events, []) + EntryLines(j, events[j]);
  }

  /** A key is its year digits, '-', the month digits, '-', the day digits. */
  lemma DateKeySplit(y: nat, m: nat, d: nat)
    ensures DateKey(y, m, d) == Decimal(y) + ("-" + (Pad2Zero(m) + ("-" + Pad2Zero(d))))
  {
  }

  /**
   Two strings that start with a number field of the same width and then '-'
   compare by the numbers, then by what follows the '-'.
   */
  lemma FieldLexLess(x: string, r: string, x': string, r': string)
    requires |x| == |x'| && AllDigits(x) && AllDigits(x')
    ensures LexLess(x + ("-" + r), x' + ("-" + r')) <==>
      DecimalValue(x) < DecimalValue(x') || (DecimalValue(x) == DecimalValue(x') && LexLess(r, r'))
  {
    LexLessAppend(x, "-" + r, x', "-" + r');
    DigitsLexLess(x, x');
    DigitsLexLess(x', x);
    if x != x' {
      LexLessTotal(x, x');
    }
    LexLessAppend("-", r, "-", r');
    LexLessIrreflexive("-");
  }
}
