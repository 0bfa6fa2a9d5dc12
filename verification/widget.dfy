/**
 * MyCalendarWidget.kt: the cached records the widget reads, the selection of
 * the day to show, the cache-freshness gate, the display order of a day's
 * classes, and the persisted day offset moved by the navigation buttons.
 * RemoteViews, intents and the widget manager are not modelled; a rendered
 * widget is the value `Timetable`.
 */
module MyCalendarWidget {
  import opened Wrappers
  import opened Lex
  import opened Sorting
  import opened TimeUtils

  /** Kotlin's `Int`. */
  newtype int32 = x: int | -0x8000_0000 <= x < 0x8000_0000

  /** `a + d` in 32-bit two's-complement arithmetic, as Kotlin's `Int` computes it. */
  function AddInt32(a: int32, d: int): (r: int32)
    ensures -0x8000_0000 <= a as int + d < 0x8000_0000 ==> r as int == a as int + d
    ensures (r as int - (a as int + d)) % 0x1_0000_0000 == 0
  {
    ((a as int + d + 0x8000_0000) % 0x1_0000_0000 - 0x8000_0000) as int32
  }

  /** `CalendarEvent`: one class as the widget stores and shows it. */
  datatype CalendarEvent = CalendarEvent(
    title: string,
    date: string,      // "yyyy-MM-dd"
    startHour: real,   // 8.0 is 8h00, 9.5 is 9h30
    endHour: real,
    color: int,
    room: Option<string>)

  /** `Pair<String, List<CalendarEvent>>`. */
  datatype DateEvents = DateEvents(date: string, events: seq<CalendarEvent>)

  /** Reference definition: the events on `date`, in input order. */
  function EventsOn(events: seq<CalendarEvent>, date: string): (r: seq<CalendarEvent>)
    ensures |r| <= |events|
    ensures forall e :: e in r <==> e in events && e.date == date
    ensures (forall e :: e in events ==> e.date != date) ==> r == []
  {
    if events == [] then []
    else
      assert forall e :: e in events <==> e == events[0] || e in events[1..];
      (if events[0].date == date then [events[0]] else []) + EventsOn(events[1..], date)
  }

  /** `events.groupBy { it.date }`: each date that occurs, with its events in input order. */
  function GroupBy(events: seq<CalendarEvent>): (g: map<string, seq<CalendarEvent>>)
    ensures forall d :: d in g <==> EventsOn(events, d) != []
    ensures forall d :: d in g ==> g[d] == EventsOn(events, d)
  {
    if events == [] then map[]
    else
      var e := events[0];
      var g := GroupBy(events[1..]);
      if e.date !in g then
        g[e.date := [e]]
      else
        g[e.date := [e] + g[e.date]]
  }

  /**
   * `findDateWithEvents`, with the target date (today plus the offset,
   * formatted) passed in. The Kotlin result type is nullable.
   */
  function FindDateWithEvents(events: seq<CalendarEvent>, targetDate: string): (r: Option<DateEvents>)
    ensures r.Some?
    ensures r.value.date == targetDate
    ensures r.value.events == EventsOn(events, targetDate)
  {
    var byDate := GroupBy(events);
    Some(DateEvents(targetDate, if targetDate in byDate then byDate[targetDate] else []))
  }

  /** No repetitions, ascending as Kotlin compares strings. */
  ghost predicate StrictlyAscending(ds: seq<string>) {
    forall i, j :: 0 <= i < j < |ds| ==> LexLe(ds[i], ds[j]) && ds[i] != ds[j]
  }

  function InsertDate(d: string, ds: seq<string>): (r: seq<string>)
    requires StrictlyAscending(ds)
    ensures StrictlyAscending(r)
    ensures forall x :: x in r <==> x == d || x in ds
  {
    if ds == [] then [d]
    else if d == ds[0] then ds
    else if LexLe(d, ds[0]) then
      assert forall j :: 0 <= j < |ds| ==> LexLe(d, ds[j]) && d != ds[j] by {
        forall j | 0 <= j < |ds| ensures LexLe(d, ds[j]) && d != ds[j] {
          if j > 0 {
            LexLeTransitive(d, ds[0], ds[j]);
            if d == ds[j] { LexLeAntisymmetric(ds[0], ds[j]); }
          }
        }
      }
      [d] + ds
    else
      var rest := InsertDate(d, ds[1..]);
      assert forall x :: x in ds <==> x == ds[0] || x in ds[1..];
      LexLeTotal(d, ds[0]);
      assert forall j :: 0 <= j < |rest| ==> LexLe(ds[0], rest[j]) && ds[0] != rest[j] by {
        forall j | 0 <= j < |rest| ensures LexLe(ds[0], rest[j]) && ds[0] != rest[j] {
          if rest[j] != d {
            assert rest[j] in ds[1..];
            var m :| 0 <= m < |ds[1..]| && ds[1..][m] == rest[j];
            assert ds[m + 1] == rest[j];
          }
        }
      }
      [ds[0]] + rest
  }

  /** The keys of `groupBy { it.date }.toSortedMap()`, in iteration order. */
  function SortedDates(events: seq<CalendarEvent>): (r: seq<string>)
    ensures StrictlyAscending(r)
    ensures forall d :: d in r <==> exists e :: e in events && e.date == d
  {
    if events == [] then []
    else
      assert forall x :: x in events <==> x == events[0] || x in events[1..];
      InsertDate(events[0].date, SortedDates(events[1..]))
  }

  /**
   * In an ascending list of dates, the first one not before `today` is not
   * after any other such date.
   */
  lemma FirstNotBeforeIsLeast(dates: seq<string>, i: nat, today: string)
    requires StrictlyAscending(dates)
    requires i < |dates| && LexLe(today, dates[i])
    requires forall j :: 0 <= j < i ==> !LexLe(today, dates[j])
    ensures forall j :: 0 <= j < |dates| && LexLe(today, dates[j]) ==> LexLe(dates[i], dates[j])
  {
    forall j | 0 <= j < |dates| && LexLe(today, dates[j]) ensures LexLe(dates[i], dates[j]) {
      if j == i { LexLeReflexive(dates[i]); }
    }
  }

  /** No event is dated at or after `today`. */
  ghost predicate NoDateFrom(events: seq<CalendarEvent>, today: string) {
    forall e :: e in events ==> !LexLe(today, e.date)
  }

  /** `date` is the least event date at or after `today`. */
  ghost predicate IsNextDate(events: seq<CalendarEvent>, today: string, date: string) {
    && LexLe(today, date)
    && (exists e :: e in events && e.date == date)
    && (forall e :: e in events && LexLe(today, e.date) ==> LexLe(date, e.date))
  }

  /** When no sorted date is at or after `today`, no event date is. */
  lemma NoDateNotBefore(events: seq<CalendarEvent>, dates: seq<string>, today: string)
    requires dates == SortedDates(events)
    requires forall j :: 0 <= j < |dates| ==> !LexLe(today, dates[j])
    ensures NoDateFrom(events, today)
  {
    forall e | e in events ensures !LexLe(today, e.date) {
      assert e.date in dates;
    }
  }

  /** The first sorted date at or after `today` is the next date with events. */
  lemma FirstDateNotBefore(events: seq<CalendarEvent>, dates: seq<string>, i: nat, today: string)
    requires dates == SortedDates(events)
    requires i < |dates| && LexLe(today, dates[i])
    requires forall j :: 0 <= j < i ==> !LexLe(today, dates[j])
    ensures IsNextDate(events, today, dates[i])
    ensures EventsOn(events, dates[i]) != []
    ensures !NoDateFrom(events, today)
  {
    FirstNotBeforeIsLeast(dates, i, today);
    forall e | e in events && LexLe(today, e.date) ensures LexLe(dates[i], e.date) {
      assert e.date in dates;
    }
    assert dates[i] in dates;
    var e :| e in events && e.date == dates[i];
    assert e in EventsOn(events, dates[i]);
  }

  /**
   * The scan of `findNextDateWithEvents`: the position of the first date in
   * `dates` not before `today`, or `|dates|` when there is none.
   */
  method FirstDateFrom(dates: seq<string>, today: string) returns (i: nat)
    ensures i <= |dates|
    ensures forall j :: 0 <= j < i ==> !LexLe(today, dates[j])
    ensures i < |dates| ==> LexLe(today, dates[i])
  {
    i := 0;
    while i < |dates|
      invariant 0 <= i <= |dates|
      invariant forall j :: 0 <= j < i ==> !LexLe(today, dates[j])
    {
      if LexLe(today, dates[i]) {
        return;
      }
      i := i + 1;
    }
  }

  /**
   * `findNextDateWithEvents`: walks the dates of `groupBy { it.date }` in
   * ascending order and returns the first one not before `today` with its
   * events, or null.
   */
  method FindNextDateWithEvents(events: seq<CalendarEvent>, today: string) returns (r: Option<DateEvents>)
    ensures r.None? <==> NoDateFrom(events, today)
    ensures r.Some? ==> IsNextDate(events, today, r.value.date)
                        && r.value.events == EventsOn(events, r.value.date)
  {
    var byDate := GroupBy(events);
    var dates := SortedDates(events);
    var i := FirstDateFrom(dates, today);
    if i < |dates| {
      FirstDateNotBefore(events, dates, i, today);
      r := Some(DateEvents(dates[i], byDate[dates[i]]));
    } else {
      NoDateNotBefore(events, dates, today);
      r := None;
    }
  }

  /** The cached JSON under "cached_events": decodable to a list, or not (Gson throws). */
  datatype CachedJson = Decodable(events: seq<CalendarEvent>) | Undecodable

  /** The "widget_cache" preferences; a missing key is `None`. */
  datatype CacheStore = CacheStore(cachedEvents: Option<CachedJson>, cacheTimestamp: Option<int>)

  /** `1000 * 60 * 60 * 6`: six hours in milliseconds. */
  const MaxAgeMs: int := 1000 * 60 * 60 * 6

  /**
   * `fetchCalendarEvent`: the cached list when it exists and is younger than
   * six hours (the timestamp read with default 0), otherwise the empty list;
   * an exception while decoding also gives the empty list.
   */
  function FetchCalendarEvent(store: CacheStore, now: int): (r: seq<CalendarEvent>)
    ensures r != [] ==>
      store.cachedEvents.Some? && now - store.cacheTimestamp.GetOr(0) < MaxAgeMs
    ensures store.cachedEvents.Some? && store.cachedEvents.value.Decodable?
            && now - store.cacheTimestamp.GetOr(0) < MaxAgeMs
            ==> r == store.cachedEvents.value.events
    ensures store.cachedEvents == Some(Undecodable) ==> r == []
  {
    var cacheTimestamp := store.cacheTimestamp.GetOr(0);
    if store.cachedEvents.Some? && now - cacheTimestamp < MaxAgeMs then
      match store.cachedEvents.value
      case Decodable(events) => events
      case Undecodable => []
    else
      []
  }

  /** With no timestamp stored, the cache is rejected once six hours past the epoch. */
  lemma MissingTimestampRejects(store: CacheStore, now: int)
    requires store.cacheTimestamp.None? && now >= MaxAgeMs
    ensures FetchCalendarEvent(store, now) == []
  {
  }

  /** The age limit is strict: a cache exactly six hours old is rejected. */
  lemma SixHoursIsStale(store: CacheStore, stamp: int)
    requires store.cacheTimestamp == Some(stamp)
    ensures FetchCalendarEvent(store, stamp + MaxAgeMs) == []
    ensures store.cachedEvents.Some? && store.cachedEvents.value.Decodable?
            ==> FetchCalendarEvent(store, stamp + MaxAgeMs - 1) == store.cachedEvents.value.events
  {
  }

  /** `Color.LTGRAY` (0xFFCCCCCC) as a Kotlin `Int`. */
  const LtGray: int := -3355444

  /** One timetable cell: the "no classes" cell, or the cell of one class. */
  datatype Cell = NoClassesCell | ClassCell(event: CalendarEvent)

  /** A rendered widget: its title date and its cells, or the "Erreur de date" title. */
  datatype Timetable = DateError | Timetable(date: string, cells: seq<Cell>)

  const NoClassesText: string := "\U{1F389} Aucun cours pr\U{E9}vu"
  const RoomPrefix: string := "\n\U{1F4CD} Salle : "
  const NoRoomText: string := "\n\U{1F4CD} Salle non sp\U{E9}cifi\U{E9}e"

  predicate StartsWith(s: string, prefix: string) {
    |prefix| <= |s| && s[..|prefix|] == prefix
  }

  predicate EndsWith(s: string, suffix: string) {
    |suffix| <= |s| && s[|s| - |suffix|..] == suffix
  }

  /**
   * The room line: "Salle : " and the room when there is one, otherwise
   * "Salle non spécifiée". The two forms cannot be confused.
   */
  function RoomInfo(room: Option<string>): (r: string)
    ensures StartsWith(r, RoomPrefix) <==> room.Some?
    ensures room.Some? ==> r[|RoomPrefix|..] == room.value
    ensures room.None? ==> r == NoRoomText
  {
    match room
    case Some(name) =>
      ConcatEnds(RoomPrefix, name);
      RoomPrefix + name
    case None =>
      assert NoRoomText[9] != RoomPrefix[9];
      NoRoomText
  }

  /**
   * The text of a cell; a class cell reads "🕒 start - end", "📚 title", then
   * the room line, so it is never the "no classes" text.
   */
  function CellText(c: Cell): (r: string)
    ensures r == NoClassesText <==> c.NoClassesCell?
    ensures c.ClassCell? ==> StartsWith(r, TimeLead(c.event)) && EndsWith(r, RoomInfo(c.event.room))
  {
    match c
    case NoClassesCell => NoClassesText
    case ClassCell(e) =>
      ClassCellStartsAndEnds(e);
      assert (CellHead(e) + RoomInfo(e.room))[0] == TimeLead(e)[0];
      CellHead(e) + RoomInfo(e.room)
  }

  /** The background colour of a cell: light grey for "no classes", else the class colour. */
  function CellColor(c: Cell): (color: int)
    ensures c.NoClassesCell? ==> color == LtGray
    ensures c.ClassCell? ==> color == c.event.color
  {
    match c
    case NoClassesCell => LtGray
    case ClassCell(e) => e.color
  }

  function CellHead(e: CalendarEvent): string {
    TimeLead(e) + ToHourString(e.endHour) + "\n\U{1F4DA} " + e.title
  }

  /** "🕒 start - ", the opening of a class cell. */
  function TimeLead(e: CalendarEvent): string {
    "\U{1F552} " + ToHourString(e.startHour) + " - "
  }

  lemma ConcatEnds(a: string, b: string)
    ensures StartsWith(a + b, a) && EndsWith(a + b, b)
  {
    assert (a + b)[..|a|] == a;
    assert (a + b)[|a|..] == b;
  }

  lemma StartsWithAppend(s: string, t: string, prefix: string)
    requires StartsWith(s, prefix)
    ensures StartsWith(s + t, prefix)
  {
    assert (s + t)[..|prefix|] == s[..|prefix|];
  }

  /** The head and room line of a class cell, put together, start with the time lead. */
  lemma ClassCellStartsAndEnds(e: CalendarEvent)
    ensures StartsWith(CellHead(e) + RoomInfo(e.room), TimeLead(e))
    ensures EndsWith(CellHead(e) + RoomInfo(e.room), RoomInfo(e.room))
  {
    var lead := TimeLead(e);
    var a := lead + ToHourString(e.endHour);
    var b := a + "\n\U{1F4DA} ";
    var head := b + e.title;
    ConcatEnds(lead, ToHourString(e.endHour));
    StartsWithAppend(a, "\n\U{1F4DA} ", lead);
    StartsWithAppend(b, e.title, lead);
    StartsWithAppend(head, RoomInfo(e.room), lead);
    ConcatEnds(head, RoomInfo(e.room));
  }

  /**
   * A class cell keeps the class colour, begins with its start label and
   * ends with its room, or with "Salle non spécifiée" when it has none.
   */
  lemma ClassCellText(e: CalendarEvent)
    ensures CellColor(ClassCell(e)) == e.color
    ensures StartsWith(CellText(ClassCell(e)), TimeLead(e))
    ensures e.room.None? ==> EndsWith(CellText(ClassCell(e)), NoRoomText)
    ensures e.room.Some? ==> EndsWith(CellText(ClassCell(e)), RoomPrefix + e.room.value)
  {
  }

  function StartHourKey(e: CalendarEvent): real { e.startHour }

  /** The day's events in display order: `sortedBy { it.startHour }`. */
  function DisplayOrder(dayEvents: seq<CalendarEvent>): (r: seq<CalendarEvent>)
    ensures SortedBy(r, StartHourKey)
    ensures multiset(r) == multiset(dayEvents)
    ensures |r| == |dayEvents|
    ensures forall k :: WithKey(r, StartHourKey, k) == WithKey(dayEvents, StartHourKey, k)
  {
    SortBySorted(dayEvents, StartHourKey);
    assert forall k :: WithKey(SortBy(dayEvents, StartHourKey), StartHourKey, k)
                       == WithKey(dayEvents, StartHourKey, k) by {
      forall k ensures WithKey(SortBy(dayEvents, StartHourKey), StartHourKey, k)
                       == WithKey(dayEvents, StartHourKey, k) {
        SortByStable(dayEvents, StartHourKey, k);
      }
    }
    SortBy(dayEvents, StartHourKey)
  }

  /** One cell per class, in the given order. */
  function ClassCells(events: seq<CalendarEvent>): (cells: seq<Cell>)
    ensures |cells| == |events|
    ensures forall i :: 0 <= i < |events| ==> cells[i] == ClassCell(events[i])
  {
    if events == [] then []
    else ClassCells(events[..|events| - 1]) + [ClassCell(events[|events| - 1])]
  }

  /** The cells of a day: one "no classes" cell, or one cell per class in display order. */
  function DayCells(dayEvents: seq<CalendarEvent>): (cells: seq<Cell>)
    ensures dayEvents == [] ==> cells == [NoClassesCell]
    ensures dayEvents != [] ==> |cells| == |dayEvents| && NoClassesCell !in cells
  {
    if dayEvents == [] then [NoClassesCell] else ClassCells(DisplayOrder(dayEvents))
  }

  /**
   * The display order is the day's events ascending by start hour, with
   * nothing added or lost, and classes starting at the same hour kept in
   * their stored order; an empty day shows exactly the "no classes" cell.
   */
  lemma DayCellsShowDay(dayEvents: seq<CalendarEvent>)
    ensures dayEvents == [] ==> DayCells(dayEvents) == [NoClassesCell]
    ensures dayEvents != [] ==>
      && |DayCells(dayEvents)| == |dayEvents|
      && SortedBy(DisplayOrder(dayEvents), StartHourKey)
      && multiset(DisplayOrder(dayEvents)) == multiset(dayEvents)
      && (forall k :: WithKey(DisplayOrder(dayEvents), StartHourKey, k)
                      == WithKey(dayEvents, StartHourKey, k))
      && (forall i :: 0 <= i < |dayEvents| ==>
            DayCells(dayEvents)[i] == ClassCell(DisplayOrder(dayEvents)[i]))
  {
  }

  /**
   * `generateTimetableView` for the day `targetDate`: the title date and the
   * cells of that day.
   */
  method GenerateTimetableView(events: seq<CalendarEvent>, targetDate: string) returns (view: Timetable)
    ensures view == Timetable(targetDate, DayCells(EventsOn(events, targetDate)))
  {
    var result := FindDateWithEvents(events, targetDate);
    if result.None? {
      assert false;
      return DateError;
    }
    var cells := AddDayCells(result.value.events);
    view := Timetable(result.value.date, cells);
  }

  /**
   * The cells `generateTimetableView` adds for one day's events: the
   * "no classes" cell, or one cell per class, added one by one in display
   * order.
   */
  method AddDayCells(rawEvents: seq<CalendarEvent>) returns (cells: seq<Cell>)
    ensures cells == DayCells(rawEvents)
  {
    if rawEvents == [] {
      return [NoClassesCell];
    }
    var ordered := SortBy(rawEvents, StartHourKey);
    cells := [];
    var i := 0;
    while i < |ordered|
      invariant 0 <= i <= |ordered|
      invariant cells == ClassCells(ordered[..i])
    {
      assert ordered[..i + 1][..i] == ordered[..i];
      cells := cells + [ClassCell(ordered[i])];
      i := i + 1;
    }
    assert ordered[..i] == ordered;
  }

  /** The "widget_prefs" preferences, which hold the day offset. */
  class WidgetPrefs {
    /** The value under "current_date_offset", `None` until first written. */
    var storedOffset: Option<int32>

    constructor ()
      ensures storedOffset == None
    {
      storedOffset := None;
    }

    /** `getCurrentDateOffset`: the stored offset, 0 when never set. */
    function CurrentOffset(): (offset: int32)
      reads this
      ensures storedOffset.None? ==> offset == 0
      ensures storedOffset.Some? ==> offset == storedOffset.value
    {
      storedOffset.GetOr(0)
    }

    /** `setCurrentDateOffset`. */
    method SetCurrentDateOffset(offset: int32)
      modifies this
      ensures storedOffset == Some(offset)
    {
      storedOffset := Some(offset);
    }

    /**
     * `onReceive`: PREVIOUS_DAY and NEXT_DAY move the offset by one (with
     * Kotlin's `Int` wrap-around); REFRESH_WIDGET and any other action
     * leave it as it is.
     */
    method OnReceive(action: string)
      modifies this
      ensures action == "PREVIOUS_DAY" ==> storedOffset == Some(AddInt32(old(CurrentOffset()), -1))
      ensures action == "NEXT_DAY" ==> storedOffset == Some(AddInt32(old(CurrentOffset()), 1))
      ensures action != "PREVIOUS_DAY" && action != "NEXT_DAY" ==> storedOffset == old(storedOffset)
    {
      if action == "PREVIOUS_DAY" {
        var currentOffset := CurrentOffset();
        SetCurrentDateOffset(AddInt32(currentOffset, -1));
      } else if action == "NEXT_DAY" {
        var currentOffset := CurrentOffset();
        SetCurrentDateOffset(AddInt32(currentOffset, 1));
      }
    }

    /**
     * `updateWidget` for one widget: reads the cache, writes back the offset
     * it has just read, and renders the day `dateAt(offset)` (today plus the
     * offset, formatted "yyyy-MM-dd"). Rendering never moves the offset.
     */
    method UpdateWidget(store: CacheStore, now: int, dateAt: int32 -> string) returns (view: Timetable)
      modifies this
      ensures storedOffset == Some(old(CurrentOffset()))
      ensures view == Timetable(dateAt(CurrentOffset()),
                                DayCells(EventsOn(FetchCalendarEvent(store, now), dateAt(CurrentOffset()))))
    {
      var events := FetchCalendarEvent(store, now);
      var offset := CurrentOffset();
      SetCurrentDateOffset(offset);
      view := GenerateTimetableView(events, dateAt(CurrentOffset()));
    }
  }

  /** NEXT_DAY followed by PREVIOUS_DAY, or the reverse, restores any offset. */
  lemma NavigationCancels(a: int32)
    ensures AddInt32(AddInt32(a, 1), -1) == a
    ensures AddInt32(AddInt32(a, -1), 1) == a
  {
    var m := 0x1_0000_0000;
    var b := AddInt32(a, 1) as int;
    var c := AddInt32(a, -1) as int;
    assert (b - (a as int + 1)) % m == 0;
    assert (c - (a as int - 1)) % m == 0;
  }
}
