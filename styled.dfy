/**
 Styled terminal text. The program wraps pieces of text in ANSI colour
 escapes; here each piece is a span carrying an abstract style, and a line is
 a sequence of spans. What a terminal shows of a line is the text of its
 spans, one after the other, so its visible width is the length of that text.
 */
module Styled {

  /** The colour wrappers the program uses, one token each. */
  datatype Style =
    | Plain                // no escape
    | Bold                 // BOLD, the month title and the event-list header
    | Cyan                 // CYAN, the weekday header, the week numbers, event dates
    | Red                  // RED, a day with an event, the invalid-date message
    | Green                // GREEN, the confirmation of an added event
    | TodayHighlight       // HL_TODAY_BG, today
    | TodayEventHighlight  // HL_TODAY_EVENT_BG, today with an event

  datatype Span = Span(text: string, style: Style)

  type Line = seq<Span>

  /** The visible text of a line: its spans' text in order. */
  function Text(line: Line): string {
    if line == [] then "" else Text(line[..|line| - 1]) + line[|line| - 1].text
  }

  /** The visible width of a line. */
  function Width(line: Line): nat {
    |Text(line)|
  }

  /** The visible text of two lines written one after the other. */
  lemma {:induction false} TextAppend(a: Line, b: Line)
    ensures Text(a + b) == Text(a) + Text(b)
    decreases |b|
  {
    if b != [] {
      var b' := b[..|b| - 1];
      assert (a + b)[..|a + b| - 1] == a + b';
      TextAppend(a, b');
    } else {
      assert a + b == a;
    }
  }

  /** A line of one span shows that span's text. */
  lemma TextSingle(s: Span)
    ensures Text([s]) == s.text
  {
    assert [s][..0] == [];
  }
}
