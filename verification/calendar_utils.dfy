/**
 * CalendarUtils.kt: turning the events of a parsed iCalendar feed into
 * `BiweeklyEvent`s. The HTTP download and the iCalendar parser are not
 * modelled; their outcome is the input `Feed`. Instants are milliseconds
 * since the epoch.
 */
module CalendarUtils {
  import opened Wrappers

  /** `Calendar.add(HOUR_OF_DAY, 2)` on an instant: two hours in milliseconds. */
  const TimezoneShiftMs: int := 2 * 60 * 60 * 1000

  /** One VEVENT as the parser hands it over: every property may be missing. */
  datatype RawEvent = RawEvent(
    dateStart: Option<int>,
    dateEnd: Option<int>,
    summary: Option<string>,
    location: Option<string>,
    description: Option<string>)

  datatype BiweeklyEvent = BiweeklyEvent(
    title: string,
    start: int,
    end: int,
    location: Option<string>,
    description: Option<string>)

  /** What the download and parse produced: the parsed calendars, or an exception. */
  datatype Feed = Parsed(calendars: seq<seq<RawEvent>>) | Failed

  /** The conversion keeps an event exactly when these three are present. */
  predicate Complete(e: RawEvent) {
    e.dateStart.Some? && e.dateEnd.Some? && e.summary.Some?
  }

  /** The `mapNotNull` lambda for one event. */
  function AdjustEvent(e: RawEvent): (r: Option<BiweeklyEvent>)
    ensures r.Some? <==> Complete(e)
    ensures r.Some? ==>
      && r.value.start == e.dateStart.value + TimezoneShiftMs
      && r.value.end == e.dateEnd.value + TimezoneShiftMs
      && r.value.title == e.summary.value
      && r.value.location == e.location
      && r.value.description == e.description
  {
    match (e.dateStart, e.dateEnd, e.summary)
    case (Some(start), Some(end), Some(summary)) =>
      Some(BiweeklyEvent(summary, start + TimezoneShiftMs, end + TimezoneShiftMs,
                         e.location, e.description))
    case _ => None
  }

  /** `events.mapNotNull { … }` over one calendar. */
  function ConvertEvents(raw: seq<RawEvent>): (r: seq<BiweeklyEvent>)
    ensures |r| <= |raw|
    ensures |r| == |raw| <==> forall e :: e in raw ==> Complete(e)
    ensures forall x :: x in r <==> exists e :: e in raw && AdjustEvent(e) == Some(x)
  {
    if raw == [] then []
    else
      var rest := ConvertEvents(raw[1..]);
      assert forall e :: e in raw <==> e == raw[0] || e in raw[1..];
      match AdjustEvent(raw[0])
      case Some(x) => [x] + rest
      case None => rest
  }

  /** `fetchCalendarEvents`: the first calendar's events, or [] when anything throws. */
  function FetchCalendarEvents(feed: Feed): (r: seq<BiweeklyEvent>)
    ensures feed.Failed? ==> r == []
    ensures feed.Parsed? && feed.calendars == [] ==> r == []
    ensures feed.Parsed? && feed.calendars != [] ==> r == ConvertEvents(feed.calendars[0])
    ensures feed.Parsed? && feed.calendars != [] ==> |r| <= |feed.calendars[0]|
  {
    match feed
    case Failed => []
    case Parsed(calendars) =>
      // With no calendar, `.first()` gives null and reading its events throws;
      // the catch turns that into [].
      if calendars == [] then [] else ConvertEvents(calendars[0])
  }

  /**
   * Conversion works event by event: converting two runs of events one
   * after the other gives the concatenation, so kept events stay in input
   * order.
   */
  lemma {:induction false} ConvertEventsAppend(a: seq<RawEvent>, b: seq<RawEvent>)
    ensures ConvertEvents(a + b) == ConvertEvents(a) + ConvertEvents(b)
  {
    if a == [] {
      assert a + b == b;
    } else {
      assert (a + b)[1..] == a[1..] + b;
      ConvertEventsAppend(a[1..], b);
    }
  }

  /** A single event yields one record iff start, end and summary are present. */
  lemma ConvertOne(e: RawEvent)
    ensures Complete(e) ==> ConvertEvents([e]) == [AdjustEvent(e).value]
    ensures !Complete(e) ==> ConvertEvents([e]) == []
  {
    assert [e][1..] == [];
  }

  /** Shifting both ends by the same two hours keeps every event's duration. */
  lemma ShiftKeepsDuration(raw: seq<RawEvent>, x: BiweeklyEvent)
    requires x in ConvertEvents(raw)
    ensures exists e :: e in raw && Complete(e) && AdjustEvent(e) == Some(x)
                     && x.end - x.start == e.dateEnd.value - e.dateStart.value
  {
    var e :| e in raw && AdjustEvent(e) == Some(x);
  }
}
