/**
 `CalendarEngine`: the events held in memory, a map from a date string to
 the list of event texts recorded for it, and the ISO week number of a date.
 Loading the map from and saving it to the JSON file is not part of this model:
 the constructor takes the map the file held.
 */
module Engine {
  import opened Wrappers
  import opened Gregorian
  import opened Format

  /** Date string to event texts, in the order they were added. */
  type EventMap = map<string, seq<string>>

  /**
   The map after `text` is appended to the list under `key`, the list being
   created empty first when the key is absent; every other key keeps its list.
   */
  function WithEvent(events: EventMap, key: string, text: string): (r: EventMap)
    ensures r.Keys == events.Keys + {key}
    ensures key in events ==> r[key] == events[key] + [text]
    ensures key !in events ==> r[key] == [text]
    ensures forall k :: k in events && k != key ==> r[k] == events[k]
  {
    var list := if key in events then events[key] else [];
    events[key := list + [text]]
  }

  /** The renderer's "has event" test: the date's key `f"{y}-{m:02d}-{d:02d}"` is in the map. */
  predicate HasEvent(events: EventMap, y: nat, m: nat, d: nat) {
    DateKey(y, m, d) in events
  }

  /**
   Every key of the map is a date string the date check accepts. AddEvent keeps
   this; a map loaded from the file need not satisfy it.
   */
  predicate KeysAreDates(events: EventMap) {
    forall k :: k in events ==> ParseDate(k).Some?
  }

  class CalendarEngine {
    var events: EventMap

    /** The engine over the map `_load_events` produced. */
    constructor (loaded: EventMap)
      ensures events == loaded
    {
      events := loaded;
    }

    /**
     `add_event`: when `dateStr` passes `strptime(dateStr, "%Y-%m-%d")`, the
     text is appended to that date string's list and the answer is true;
     otherwise the map is untouched and the answer is false.
     */
    method AddEvent(dateStr: string, text: string) returns (ok: bool)
      modifies this
      ensures ok <==> ParseDate(dateStr).Some?
      ensures ok ==> events == WithEvent(old(events), dateStr, text)
      ensures !ok ==> events == old(events)
      ensures KeysAreDates(old(events)) ==> KeysAreDates(events)
    {
      var parsed := ParseDate(dateStr);
      if parsed.None? {
        return false;
      }
      if dateStr !in events {
        events := events[dateStr := []];
      }
      events := events[dateStr := events[dateStr] + [text]];
      return true;
    }
  }

  /** `get_week_number`: the week of `date(y, m, d).isocalendar()`. */
  function WeekNumber(y: int, m: int, d: int): (w: int)
    requires ValidDate(y, m, d)
    ensures 1 <= w <= 53
  {
    IsoCalendar(y, m, d).week
  }

  /**
   The week number is the ISO 8601 week: whatever ISO decomposition of the
   day (ISO year, week, weekday) one finds, its week is WeekNumber.
   */
  lemma WeekNumberIsIsoWeek(y: int, m: int, d: int, iso: IsoDate)
    requires ValidDate(y, m, d) && IsoDecomposition(Ordinal(y, m, d), iso)
    ensures WeekNumber(y, m, d) == iso.week
  {
    IsoCalendarUnique(y, m, d, iso);
  }

  /** 2024-02-01 is in week 5. */
  lemma WeekNumberFebruary2024()
    ensures WeekNumber(2024, 2, 1) == 5
  {
    February2024Week();
  }

  /**
   After an event is added under `key`, a date shows as having an event
   exactly when it did before or `key` is that date's own key.
   */
  lemma WithEventHighlights(events: EventMap, key: string, text: string, y: nat, m: nat, d: nat)
    ensures HasEvent(WithEvent(events, key, text), y, m, d) <==> HasEvent(events, y, m, d) || key == DateKey(y, m, d)
  {
  }

  /** Adding under the key of a date with a four-digit year is accepted and marks that date. */
  lemma AddCanonicalKeyHighlights(events: EventMap, y: int, m: int, d: int, text: string)
    requires ValidDate(y, m, d) && 1000 <= y
    ensures ParseDate(DateKey(y, m, d)).Some?
    ensures HasEvent(WithEvent(events, DateKey(y, m, d), text), y, m, d)
  {
    DateKeyRoundTrip(y, m, d);
  }

  /**
   "2024-2-5" passes the date check, but is stored under a key that is not
   the date's own key "2024-02-05", so that day is not marked.
   */
  lemma ShortFormKeyNotHighlighted(events: EventMap, text: string)
    requires !HasEvent(events, 2024, 2, 5)
    ensures ParseDate("2024-2-5") == Some(Date(2024, 2, 5))
    ensures !HasEvent(WithEvent(events, "2024-2-5", text), 2024, 2, 5)
  {
    ParseDateAcceptsShortForm();
    assert DateKey(2024, 2, 5)[5] == '0';
    assert "2024-2-5"[5] == '2';
  }

  /** Adding an event under an accepted date string keeps every key an accepted date string. */
  lemma WithEventKeepsKeysDates(events: EventMap, key: string, text: string)
    requires KeysAreDates(events) && ParseDate(key).Some?
    ensures KeysAreDates(WithEvent(events, key, text))
  {
  }
}
