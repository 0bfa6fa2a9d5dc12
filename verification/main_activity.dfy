/**
 * MainActivity.kt: the list of upcoming events shown in the app, and the
 * records it writes to the widget's cache. The activity, the coroutine and
 * the broadcast are not modelled; the local calendar decomposition of an
 * instant (`Calendar` in the default time zone) is the input `clock`.
 */
module MainActivity {
  import opened Wrappers
  import opened Sorting
  import opened TimeUtils
  import opened CalendarUtils
  import opened MyCalendarWidget

  function StartKey(e: BiweeklyEvent): real { e.start as real }

  /** `filter { it.start.after(Date()) }`: the events starting strictly after `now`. */
  function StartingAfter(events: seq<BiweeklyEvent>, now: int): (r: seq<BiweeklyEvent>)
    ensures |r| <= |events|
    ensures forall e :: multiset(r)[e] == if e.start > now then multiset(events)[e] else 0
  {
    if events == [] then []
    else
      assert events == [events[0]] + events[1..];
      (if events[0].start > now then [events[0]] else []) + StartingAfter(events[1..], now)
  }

  /**
   * The upcoming list: exactly the events starting strictly after `now`,
   * each as often as in the input, ascending by start.
   */
  function UpcomingEvents(events: seq<BiweeklyEvent>, now: int): (r: seq<BiweeklyEvent>)
    ensures |r| <= |events|
    ensures forall e :: e in r <==> e in events && e.start > now
    ensures forall e :: multiset(r)[e] == if e.start > now then multiset(events)[e] else 0
    ensures SortedBy(r, StartKey)
  {
    var after := StartingAfter(events, now);
    SortBySorted(after, StartKey);
    SortBy(after, StartKey)
  }

  /**
   * The filter keeps every event of a start after `now` and drops every
   * other one, so the events sharing one start are kept in input order or
   * all dropped.
   */
  lemma {:induction false} StartingAfterWithKey(events: seq<BiweeklyEvent>, now: int, start: int)
    ensures start > now ==>
      WithKey(StartingAfter(events, now), StartKey, start as real) == WithKey(events, StartKey, start as real)
    ensures start <= now ==> WithKey(StartingAfter(events, now), StartKey, start as real) == []
  {
    if events != [] {
      var head := if events[0].start > now then [events[0]] else [];
      StartingAfterWithKey(events[1..], now, start);
      WithKeyAppend(head, StartingAfter(events[1..], now), StartKey, start as real);
      assert head != [] ==> head[1..] == [];
    }
  }

  /**
   * `sortedBy { it.start }` after the filter: upcoming events with the same
   * start keep their input order, and an event starting at or before `now`
   * appears under no start.
   */
  lemma UpcomingKeepsOrderOfTies(events: seq<BiweeklyEvent>, now: int, start: int)
    ensures start > now ==>
      WithKey(UpcomingEvents(events, now), StartKey, start as real) == WithKey(events, StartKey, start as real)
    ensures start <= now ==> WithKey(UpcomingEvents(events, now), StartKey, start as real) == []
  {
    SortByStable(StartingAfter(events, now), StartKey, start as real);
    StartingAfterWithKey(events, now, start);
  }

  /** What `Calendar` gives for an instant: the formatted local date, hour of day, minute. */
  datatype LocalTime = LocalTime(date: string, hourOfDay: int, minute: int)

  /** `android.graphics.Color.GRAY` (0xFF888888) as a Kotlin `Int`. */
  const Gray: int := -7829368

  /** `hour + minute / 60`: the fractional hour stored in a record. */
  function FractionalHour(t: LocalTime): (h: real)
    ensures 0 <= t.minute < 60 ==> t.hourOfDay as real <= h < t.hourOfDay as real + 1.0
    ensures 0 <= t.minute < 60 ==> (h >= t.hourOfDay as real + 0.5 <==> t.minute >= 30)
  {
    t.hourOfDay as real + t.minute as real / 60.0
  }

  /**
   * The `mapNotNull` lambda of `cacheEventsForWidget`. `clock` gives `None`
   * where the decomposition would throw, and the catch drops the event.
   */
  function ToCalendarEvent(e: BiweeklyEvent, clock: int -> Option<LocalTime>): (r: Option<CalendarEvent>)
    ensures r.Some? <==> clock(e.start).Some? && clock(e.end).Some?
    ensures r.Some? ==>
      && r.value.title == e.title
      && r.value.room == e.location
      && r.value.color == Gray
      && r.value.date == clock(e.start).value.date
      && r.value.startHour == FractionalHour(clock(e.start).value)
      && r.value.endHour == FractionalHour(clock(e.end).value)
  {
    match (clock(e.start), clock(e.end))
    case (Some(calStart), Some(calEnd)) =>
      Some(CalendarEvent(e.title, calStart.date, FractionalHour(calStart), FractionalHour(calEnd),
                         Gray, e.location))
    case _ => None
  }

  /** The records written to the cache: one per event, in input order, dropping failures. */
  function CalendarEventsFor(events: seq<BiweeklyEvent>, clock: int -> Option<LocalTime>): (r: seq<CalendarEvent>)
    ensures |r| <= |events|
    ensures (forall e :: e in events ==> clock(e.start).Some? && clock(e.end).Some?) ==> |r| == |events|
    ensures forall c :: c in r <==> exists e :: e in events && ToCalendarEvent(e, clock) == Some(c)
  {
    if events == [] then []
    else
      var rest := CalendarEventsFor(events[1..], clock);
      assert forall e :: e in events <==> e == events[0] || e in events[1..];
      match ToCalendarEvent(events[0], clock)
      case Some(c) => [c] + rest
      case None => rest
  }

  /** The mapping works event by event, so records keep the order of their events. */
  lemma {:induction false} CalendarEventsForAppend(a: seq<BiweeklyEvent>, b: seq<BiweeklyEvent>,
                                                   clock: int -> Option<LocalTime>)
    ensures CalendarEventsFor(a + b, clock) == CalendarEventsFor(a, clock) + CalendarEventsFor(b, clock)
  {
    if a == [] {
      assert a + b == b;
    } else {
      assert (a + b)[1..] == a[1..] + b;
      CalendarEventsForAppend(a[1..], b, clock);
    }
  }

  /**
   * For a valid local time (hour 0..23, minute 0..59) the stored hour lies in
   * [0, 24) and the widget labels it with the hour and "h30" from minute 30
   * on, "h00" before.
   */
  lemma StoredHourLabel(t: LocalTime)
    requires 0 <= t.hourOfDay < 24 && 0 <= t.minute < 60
    ensures 0.0 <= FractionalHour(t) < 24.0
    ensures ToHourString(FractionalHour(t))
         == NatToString(t.hourOfDay) + (if t.minute >= 30 then "h30" else "h00")
  {
    var x := FractionalHour(t);
    assert t.minute as real / 60.0 < 1.0;
    assert x >= t.hourOfDay as real + 0.5 <==> t.minute >= 30;
    LabelRoundsDownToHalfHour(t.hourOfDay, x);
  }

  /**
   * The `putString("cached_events", …)` edit: it replaces the cached list
   * and leaves "cache_timestamp" as it was.
   */
  function StoreCachedEvents(store: CacheStore, records: seq<CalendarEvent>): (r: CacheStore)
    ensures r.cachedEvents == Some(Decodable(records))
    ensures r.cacheTimestamp == store.cacheTimestamp
  {
    store.(cachedEvents := Some(Decodable(records)))
  }

  /** `cacheEventsForWidget`, as written: maps every event and stores the list. */
  function CacheEventsForWidget(store: CacheStore, events: seq<BiweeklyEvent>,
                                clock: int -> Option<LocalTime>): (r: CacheStore)
    ensures r.cacheTimestamp == store.cacheTimestamp
    ensures r.cachedEvents == Some(Decodable(CalendarEventsFor(events, clock)))
    ensures |r.cachedEvents.value.events| <= |events|
  {
    StoreCachedEvents(store, CalendarEventsFor(events, clock))
  }

  /** The fresh preferences file: no key written yet. */
  const EmptyStore: CacheStore := CacheStore(None, None)

  /**
   * The cache the activity writes is never read back: no writer stores a
   * timestamp, so the widget compares `now` with 0 and rejects the list at
   * any time from six hours past the epoch on, however many events it holds.
   */
  lemma WrittenCacheIsRejected(events: seq<BiweeklyEvent>, clock: int -> Option<LocalTime>, now: int)
    requires now >= MaxAgeMs
    ensures CacheEventsForWidget(EmptyStore, events, clock).cacheTimestamp.None?
    ensures FetchCalendarEvent(CacheEventsForWidget(EmptyStore, events, clock), now) == []
  {
  }

  /** One class on 2025-09-01 at 8h00, written today and read at once, still gives []. */
  lemma WrittenCacheIsRejectedExample()
    ensures var e := BiweeklyEvent("Algo", 1756706400000, 1756713600000, Some("A1"), None);
            var clock := (i: int) => Some(LocalTime("2025-09-01", if i == e.start then 8 else 10, 0));
            var store := CacheEventsForWidget(EmptyStore, [e], clock);
            |store.cachedEvents.value.events| == 1 && FetchCalendarEvent(store, 1756706400000) == []
  {
  }

  /** The write that was meant: the list together with the time it was written. */
  function StoreCachedEventsStamped(store: CacheStore, records: seq<CalendarEvent>, now: int): (r: CacheStore)
    ensures r.cachedEvents == Some(Decodable(records))
    ensures r.cacheTimestamp == Some(now)
  {
    store.(cachedEvents := Some(Decodable(records)), cacheTimestamp := Some(now))
  }

  /** `cacheEventsForWidget` with the timestamp write it lacks. */
  function CacheEventsForWidgetStamped(store: CacheStore, events: seq<BiweeklyEvent>,
                                       clock: int -> Option<LocalTime>, now: int): (r: CacheStore)
    ensures r.cacheTimestamp == Some(now)
    ensures r.cachedEvents == Some(Decodable(CalendarEventsFor(events, clock)))
    ensures |r.cachedEvents.value.events| <= |events|
  {
    StoreCachedEventsStamped(store, CalendarEventsFor(events, clock), now)
  }

  /**
   * With the timestamp written, the widget reads back exactly the records
   * written for six hours, and nothing from then on.
   */
  lemma StampedCacheIsUsed(store: CacheStore, events: seq<BiweeklyEvent>,
                           clock: int -> Option<LocalTime>, written: int, now: int)
    requires written <= now
    ensures now < written + MaxAgeMs ==>
      FetchCalendarEvent(CacheEventsForWidgetStamped(store, events, clock, written), now)
        == CalendarEventsFor(events, clock)
    ensures now >= written + MaxAgeMs ==>
      FetchCalendarEvent(CacheEventsForWidgetStamped(store, events, clock, written), now) == []
  {
  }

  /** What the coroutine of `onCreate` produces: the list shown and the cache written. */
  datatype Launch = Launch(upcoming: seq<BiweeklyEvent>, cache: CacheStore)

  /**
   * `onCreate`'s background work: fetch, keep the upcoming events for the
   * list, and cache every fetched event (upcoming or not) for the widget.
   */
  function OnCreate(feed: Feed, now: int, clock: int -> Option<LocalTime>, store: CacheStore): (r: Launch)
    ensures r.upcoming == UpcomingEvents(FetchCalendarEvents(feed), now)
    ensures r.cache.cachedEvents == Some(Decodable(CalendarEventsFor(FetchCalendarEvents(feed), clock)))
    ensures r.cache.cacheTimestamp == store.cacheTimestamp
  {
    var allEvents := FetchCalendarEvents(feed);
    Launch(UpcomingEvents(allEvents, now), CacheEventsForWidget(store, allEvents, clock))
  }

  /**
   * The cache holds a record for every fetched event, past ones included,
   * when every instant decomposes; a failed fetch caches the empty list.
   */
  lemma OnCreateCachesAllEvents(feed: Feed, now: int, clock: int -> Option<LocalTime>, store: CacheStore)
    requires forall i :: clock(i).Some?
    ensures |OnCreate(feed, now, clock, store).cache.cachedEvents.value.events| == |FetchCalendarEvents(feed)|
    ensures feed.Failed? ==> OnCreate(feed, now, clock, store).cache.cachedEvents == Some(Decodable([]))
    ensures |OnCreate(feed, now, clock, store).upcoming| <= |FetchCalendarEvents(feed)|
  {
  }
}
