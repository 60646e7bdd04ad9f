/** The state the dashboard keeps between events: the colour cursor that
    tints event rows, the event list with its de-duplication set, and the
    weekly schedule whose working hours `compare_times` sets. */
module Sundial {
  import opened Common
  import opened SundialText

  // ---------------------------------------------------------------------
  // The colour cycle

  /** `colors`: the seven row backgrounds, in the order they are used. */
  const Colors: seq<string> := ["#FCEEFB", "#FFF5E8", "#EFECFF", "#D8E7F2", "#EBF2FC", "#E4E4E4", "#ECF6E4"]

  /** A position of the colour cursor. */
  type ColorIndex = i: nat | i < 7

  /** The cursor's position after `k` calls of `get_next_color` from `start`. */
  function ColorIndexAfter(start: nat, k: nat): (r: nat)
    ensures r < |Colors|
  {
    (start + k) % |Colors|
  }

  /** The colour the `k`-th call (counting from 1) returns. */
  function ColorOfCall(start: nat, k: nat): string
  {
    Colors[ColorIndexAfter(start, k)]
  }

  /** The seven colours are pairwise different. */
  lemma ColorsDistinct()
    ensures forall i, j :: 0 <= i < j < |Colors| ==> Colors[i] != Colors[j]
  {
  }

  /** The colours repeat with period seven, and two consecutive calls never
      return the same colour. From the initial cursor 0 the first call
      returns the second colour. */
  lemma {:induction false} ColorCycle(start: nat, k: nat)
    ensures ColorOfCall(start, k + |Colors|) == ColorOfCall(start, k)
    ensures ColorOfCall(start, k + 1) != ColorOfCall(start, k)
    ensures ColorOfCall(0, 1) == Colors[1]
  {
    assert (start + k + |Colors|) % |Colors| == (start + k) % |Colors|;
    var i, j := ColorIndexAfter(start, k), ColorIndexAfter(start, k + 1);
    assert j == (i + 1) % |Colors|;
    ColorsDistinct();
  }

  /** The module-level `current_color_index` and `get_next_color`. */
  class Palette {
    var index: ColorIndex

    /** `current_color_index = 0`. */
    constructor ()
      ensures index == 0
    {
      index := 0;
    }

    /** `get_next_color`: advance the cursor cyclically, then return the
        colour under it. */
    method NextColor() returns (c: string)
      modifies this
      ensures index == ColorIndexAfter(old(index), 1)
      ensures c == Colors[index]
    {
      index := (index + 1) % |Colors|;
      c := Colors[index];
    }
  }

  lemma {:induction false} CursorStep(start: nat, k: nat)
    ensures ColorIndexAfter(ColorIndexAfter(start, k), 1) == ColorIndexAfter(start, k + 1)
  {
    var n := |Colors|;
    var a := start + k;
    assert a == (a / n) * n + a % n;
    assert (a % n + 1) % n == (a + 1) % n by {
      assert a + 1 == (a / n) * n + (a % n + 1);
    }
  }

  // ---------------------------------------------------------------------
  // The event list

  /** One entry of `list_view_events`: an application name and a time span
      already formatted for display. */
  datatype Event = Event(app: string, time: string)

  /** `event['app'] + event['time']`: the de-duplication key. Two events
      whose concatenations coincide count as the same. */
  function Key(e: Event): string
  {
    e.app + e.time
  }

  /** The keys of a list of events. */
  function KeysOf(es: seq<Event>): set<string>
  {
    set e | e in es :: Key(e)
  }

  /** The events a refresh shows after its first `n` passes, in order: each
      event whose key no earlier event of the list had. */
  function ShownUpTo(es: seq<Event>, n: nat): seq<Event>
    requires n <= |es|
  {
    if n == 0 then []
    else
      var prev := ShownUpTo(es, n - 1);
      if Key(es[n - 1]) in KeysOf(es[..n - 1]) then prev else prev + [es[n - 1]]
  }

  /** The events a whole refresh shows. */
  function Shown(es: seq<Event>): seq<Event>
  {
    ShownUpTo(es, |es|)
  }

  lemma KeysSnoc(es: seq<Event>, e: Event)
    ensures KeysOf(es + [e]) == KeysOf(es) + {Key(e)}
  {
    var s := es + [e];
    forall k | k in KeysOf(s)
      ensures k in KeysOf(es) + {Key(e)}
    {
      var x :| x in s && Key(x) == k;
      if x != e {
        assert x in es;
      }
    }
  }

  lemma KeysStep(es: seq<Event>, i: nat)
    requires i < |es|
    ensures KeysOf(es[..i + 1]) == KeysOf(es[..i]) + {Key(es[i])}
  {
    assert es[..i + 1] == es[..i] + [es[i]];
    KeysSnoc(es[..i], es[i]);
  }

  /** A row of the event list: the event it shows and its background
      colour. */
  datatype Row = Row(event: Event, color: string)

  /** The label of a row: the application name cut to twenty words, with
      the full name as tooltip when the cut text is long. */
  function Caption(r: Row): AppLabel
  {
    LabelFor(r.event.app)
  }

  /** The rows shown for `shown`, coloured by consecutive calls of
      `get_next_color` from cursor `start`: row `j` shows event `j` in the
      colour of call `j + 1`. */
  function RowsFor(shown: seq<Event>, start: nat): seq<Row>
  {
    seq(|shown|, j requires 0 <= j < |shown| => Row(shown[j], ColorOfCall(start, j + 1)))
  }

  /** One more shown event adds one row, with the next colour. */
  lemma RowsForSnoc(shown: seq<Event>, e: Event, start: nat)
    ensures RowsFor(shown + [e], start) == RowsFor(shown, start) + [Row(e, ColorOfCall(start, |shown| + 1))]
  {
    var s := shown + [e];
    forall j | 0 <= j < |shown|
      ensures RowsFor(s, start)[j] == RowsFor(shown, start)[j]
    {
      assert s[j] == shown[j];
    }
  }

  /** Within one refresh no key is shown twice, every shown event comes from
      the list, and every key of the list is shown. */
  lemma {:induction false} ShownOnce(es: seq<Event>, n: nat)
    requires n <= |es|
    ensures var s := ShownUpTo(es, n);
      && (forall a, b :: 0 <= a < b < |s| ==> Key(s[a]) != Key(s[b]))
      && (forall a :: 0 <= a < |s| ==> s[a] in es[..n])
      && KeysOf(s) == KeysOf(es[..n])
    decreases n
  {
    if n > 0 {
      var e := es[n - 1];
      ShownOnce(es, n - 1);
      var p := ShownUpTo(es, n - 1);
      KeysStep(es, n - 1);
      forall a | 0 <= a < |p|
        ensures p[a] in es[..n] && Key(p[a]) in KeysOf(es[..n - 1])
      {
        var k :| 0 <= k < n - 1 && es[..n - 1][k] == p[a];
        assert es[..n][k] == p[a];
      }
      if Key(e) !in KeysOf(es[..n - 1]) {
        var s := p + [e];
        KeysSnoc(p, e);
        assert e == es[..n][n - 1];
        forall a, b | 0 <= a < b < |s|
          ensures Key(s[a]) != Key(s[b])
        {
          if b < |p| {
            assert s[a] == p[a] && s[b] == p[b];
          } else {
            assert s[a] == p[a];
          }
        }
      }
    }
  }

  /** The widget that lists today's events. */
  class EventList {
    /** `displayed_events`: the keys shown since the last refresh began. */
    var displayed: set<string>
    /** The rows in the layout, top to bottom. */
    var rows: seq<Row>
    /** The shared colour cursor. */
    const palette: Palette

    constructor (palette: Palette)
      ensures displayed == {} && rows == [] && this.palette == palette
    {
      displayed := {};
      rows := [];
      this.palette := palette;
    }

    /** `refreshData`: remove every row, empty the set, then add a row for
        each event whose key is new, taking the next colour for it. `listed`
        is the list `listView` produced from the server's answer, or None
        when the answer was empty; the request itself is not modelled. */
    method RefreshData(listed: Option<seq<Event>>)
      modifies this, palette
      ensures var shown := if listed.Some? then Shown(listed.value) else [];
        && rows == RowsFor(shown, old(palette.index))
        && palette.index == ColorIndexAfter(old(palette.index), |shown|)
      ensures displayed == if listed.Some? then KeysOf(listed.value) else {}
    {
      rows := [];
      displayed := {};
      if listed.Some? {
        ShowEvents(listed.value);
      }
    }

    /** The loop of `refreshData` over `list_view_events`, starting from an
        empty list and an empty set. */
    method ShowEvents(es: seq<Event>)
      requires rows == [] && displayed == {}
      modifies this, palette
      ensures rows == RowsFor(Shown(es), old(palette.index))
      ensures palette.index == ColorIndexAfter(old(palette.index), |Shown(es)|)
      ensures displayed == KeysOf(es)
    {
      ghost var start := palette.index;
      for i := 0 to |es|
        invariant displayed == KeysOf(es[..i])
        invariant rows == RowsFor(ShownUpTo(es, i), start)
        invariant palette.index == ColorIndexAfter(start, |ShownUpTo(es, i)|)
      {
        ShowEvent(es, i, start);
      }
      assert es[..|es|] == es;
    }

    /** One pass of that loop: a row for `es[i]` when its key is new. */
    method ShowEvent(es: seq<Event>, i: nat, ghost start: nat)
      requires i < |es|
      requires displayed == KeysOf(es[..i])
      requires rows == RowsFor(ShownUpTo(es, i), start)
      requires palette.index == ColorIndexAfter(start, |ShownUpTo(es, i)|)
      modifies this, palette
      ensures displayed == KeysOf(es[..i + 1])
      ensures rows == RowsFor(ShownUpTo(es, i + 1), start)
      ensures palette.index == ColorIndexAfter(start, |ShownUpTo(es, i + 1)|)
    {
      KeysStep(es, i);
      var e := es[i];
      var key := e.app + e.time;
      if key !in displayed {
        ghost var shown := ShownUpTo(es, i);
        CursorStep(start, |shown|);
        RowsForSnoc(shown, e, start);
        var color := palette.NextColor();
        rows := rows + [Row(e, color)];
        displayed := displayed + {key};
      }
    }
  }

  // ---------------------------------------------------------------------
  // The week schedule and `compare_times`

  /** A `QTime`: hour, minute, second and millisecond of a day. */
  datatype Clock = Clock(hour: nat, minute: nat, second: nat, msec: nat)
  type Time = c: Clock | c.hour < 24 && c.minute < 60 && c.second < 60 && c.msec < 1000
    witness Clock(0, 0, 0, 0)

  function MinuteOfDay(t: Time): nat
  {
    t.hour * 60 + t.minute
  }

  /** What `QTime` orders by: milliseconds since midnight. */
  function MsOfDay(t: Time): nat
  {
    MinuteOfDay(t) * 60000 + t.second * 1000 + t.msec
  }

  /** `a > b` on `QTime`. */
  predicate Later(a: Time, b: Time)
  {
    MsOfDay(a) > MsOfDay(b)
  }

  function Digit(d: nat): char
    requires d < 10
  {
    (d + 48) as char
  }

  function DigitValue(c: char): nat
  {
    if '0' <= c <= '9' then (c as int - 48) as nat else 0
  }

  /** The hour on a twelve-hour clock: 12, 1, ..., 11. */
  function Hour12(hour: nat): (r: nat)
    requires hour < 24
    ensures 1 <= r <= 12
  {
    if hour % 12 == 0 then 12 else hour % 12
  }

  /** `toString("h:mm AP")`: hour without leading zero on a twelve-hour
      clock, two-digit minute, then AM or PM. */
  function FormatAP(t: Time): (r: string)
    ensures 7 <= |r| <= 8
  {
    var h := Hour12(t.hour);
    var hourText := if h < 10 then [Digit(h)] else [Digit(h / 10), Digit(h % 10)];
    hourText + [':', Digit(t.minute / 10), Digit(t.minute % 10), ' '] + (if t.hour < 12 then "AM" else "PM")
  }

  /** An hour and minute read back from a schedule string. */
  datatype HourMinute = HourMinute(hour: nat, minute: nat)

  /** Reads an "h:mm AP" string back, or None when it is not one. */
  function ParseAP(s: string): Option<HourMinute>
  {
    if |s| < 7 || |s| > 8 then None
    else
      var hl := |s| - 6;
      if s[hl] != ':' || s[hl + 3] != ' ' || !IsDigit(s[hl + 1]) || !IsDigit(s[hl + 2]) || !IsDigit(s[0]) || !IsDigit(s[hl - 1])
      then None
      else
        var h12 := if hl == 1 then DigitValue(s[0]) else DigitValue(s[0]) * 10 + DigitValue(s[1]);
        var minute := DigitValue(s[hl + 1]) * 10 + DigitValue(s[hl + 2]);
        var suffix := s[hl + 4..];
        if h12 < 1 || h12 > 12 || minute >= 60 || (suffix != "AM" && suffix != "PM") then None
        else if suffix == "AM" then Some(HourMinute(if h12 == 12 then 0 else h12, minute))
        else Some(HourMinute(if h12 == 12 then 12 else h12 + 12, minute))
  }

  lemma DigitRoundTrip(d: nat)
    requires d < 10
    ensures IsDigit(Digit(d)) && DigitValue(Digit(d)) == d
  {
  }

  /** Reading a formatted time gives back its hour and minute: the schedule
      strings lose only the seconds. */
  lemma {:induction false} FormatParseRoundTrip(t: Time)
    ensures ParseAP(FormatAP(t)) == Some(HourMinute(t.hour, t.minute))
  {
    var h := Hour12(t.hour);
    DigitRoundTrip(t.minute / 10);
    DigitRoundTrip(t.minute % 10);
    if h < 10 {
      DigitRoundTrip(h);
    } else {
      DigitRoundTrip(h / 10);
      DigitRoundTrip(h % 10);
    }
    var s := FormatAP(t);
    var hl := |s| - 6;
    assert hl == (if h < 10 then 1 else 2);
    assert s[hl + 4..] == (if t.hour < 12 then "AM" else "PM");
  }

  /** A from-time not later than the to-time has a minute of day no later
      than the to-time's. */
  lemma {:induction false} NotLaterMinutes(a: Time, b: Time)
    requires !Later(a, b)
    ensures MinuteOfDay(a) <= MinuteOfDay(b)
  {
    var ma, mb := MinuteOfDay(a), MinuteOfDay(b);
    assert ma * 60000 <= MsOfDay(a) <= MsOfDay(b) < mb * 60000 + 60000;
  }

  /** A pair of schedule strings that reads back as a start no later than
      the end. */
  predicate OrderedHours(start: string, end: string)
  {
    var s, e := ParseAP(start), ParseAP(end);
    s.Some? && e.Some? && s.value.hour * 60 + s.value.minute <= e.value.hour * 60 + e.value.minute
  }

  /** The strings `compare_times` stores are always in order. */
  lemma {:induction false} AcceptedTimesOrdered(from: Time, to: Time)
    requires !Later(from, to)
    ensures OrderedHours(FormatAP(from), FormatAP(to))
  {
    FormatParseRoundTrip(from);
    FormatParseRoundTrip(to);
    NotLaterMinutes(from, to);
  }

  const Weekdays: seq<string> := ["Monday", "Tuesday", "Wednesday", "Thursday", "Friday", "Saturday", "Sunday"]
  const DefaultStart := "9:30 AM"
  const DefaultEnd := "6:30 PM"
  const OrderMessage := "From Time is greater than To Time"

  /** The shipped working hours are in the format `compare_times` writes,
      and in order. */
  lemma DefaultHours()
    ensures FormatAP(Clock(9, 30, 0, 0)) == DefaultStart
    ensures FormatAP(Clock(18, 30, 0, 0)) == DefaultEnd
    ensures OrderedHours(DefaultStart, DefaultEnd)
  {
    AcceptedTimesOrdered(Clock(9, 30, 0, 0), Clock(18, 30, 0, 0));
  }

  /** `week_schedule`: one flag per weekday and the working hours. */
  class WeekSchedule {
    var days: map<string, bool>
    var starttime: string
    var endtime: string

    ghost predicate Ordered()
      reads this
    {
      OrderedHours(starttime, endtime)
    }

    /** The module-level initial value: every day on, 9:30 AM to 6:30 PM. */
    constructor ()
      ensures days == map d | d in Weekdays :: true
      ensures starttime == DefaultStart && endtime == DefaultEnd
      ensures Ordered()
    {
      days := map d | d in Weekdays :: true;
      starttime := DefaultStart;
      endtime := DefaultEnd;
      DefaultHours();
    }

    /** `compare_times`: a from-time later than the to-time only sets the
        warning label and leaves the schedule alone; otherwise both hours are
        overwritten. `warning` is the text given to the label, if any. */
    method CompareTimes(from: Time, to: Time) returns (warning: Option<string>)
      modifies this
      ensures days == old(days)
      ensures Later(from, to) ==> warning == Some(OrderMessage) && starttime == old(starttime) && endtime == old(endtime)
      ensures !Later(from, to) ==> warning.None? && starttime == FormatAP(from) && endtime == FormatAP(to)
      ensures old(Ordered()) ==> Ordered()
    {
      if Later(from, to) {
        return Some(OrderMessage);
      }
      starttime := FormatAP(from);
      endtime := FormatAP(to);
      warning := None;
      AcceptedTimesOrdered(from, to);
    }
  }
}
