# EDT timetable widget — verified model of the selection logic

This project models, in Dafny, the part of the EDT Android widget that decides
*what* is shown, leaving aside *how* Android shows it:

- **CalendarUtils** (`calendar_utils.dfy`): the conversion of the events of a
  parsed iCalendar feed into `BiweeklyEvent`s. An event is kept only with a
  start, an end and a summary. Both instants move forward two hours. Any
  failure of the download or the parse gives the empty list.
- **MainActivity** (`main_activity.dfy`): the upcoming list (events starting
  strictly after now, stably sorted by start). Also the `CalendarEvent` records
  written to the widget cache: date, fractional start and end hours, grey
  colour, room = location.
- **MyCalendarWidget** (`widget.dfy`):
  - the `CalendarEvent` record and the day selection: `findDateWithEvents`,
    which renders `today + offset`, and `findNextDateWithEvents`. The latter is
    private and never called in this revision, so the "next date with classes"
    mode is dead code; it is modelled for what it would compute;
  - the six-hour cache-freshness gate;
  - the display order of a day's classes and the single "no classes" cell;
  - the day offset kept in the widget preferences and moved by the
    PREVIOUS_DAY / NEXT_DAY buttons.
- **TimeUtils** (`time_utils.dfy`): `toHourString`, which labels 9.5 as "9h30".

Shared pieces: `sorting.dfy` models Kotlin's stable `sortedBy`; `lex.dfy`
models `String.compareTo` on the ASCII `yyyy-MM-dd` dates it compares (Dafny orders Unicode scalar values, Kotlin orders UTF-16 code units; the two agree on ASCII); `wrappers.dfy` models
nullable values as `Option`.

Instants are integer milliseconds and hours are reals. Kotlin's `Int` day
offset is a 32-bit newtype with explicit wrap-around. Three inputs stand for
the Java calendar library, which depends on locale and time zone:
- `clock`: the local date, hour and minute of an instant;
- `dateAt`: the formatted date `today + offset` days;
- `today`: today's formatted date.

## Model

| member | source | states |
|---|---|---|
| `CalendarUtils.AdjustEvent` | app/src/main/java/com/example/edtcustomwidget/CalendarUtils.kt:26-53 | an event yields a `BiweeklyEvent` iff start, end and summary are present; start and end are the input instants + 7,200,000 ms; title = summary; location and description pass through, absence included |
| `CalendarUtils.ConvertEvents` | app/src/main/java/com/example/edtcustomwidget/CalendarUtils.kt:25-54 | output no longer than input; as long as input iff every event is complete; an output element is exactly the conversion of some complete input event |
| `CalendarUtils.ConvertEventsAppend` | app/src/main/java/com/example/edtcustomwidget/CalendarUtils.kt:25 | converting `a + b` gives converted `a` then converted `b`, so kept events keep input order |
| `CalendarUtils.ConvertOne` | app/src/main/java/com/example/edtcustomwidget/CalendarUtils.kt:32-53 | one event gives one record when complete and none otherwise |
| `CalendarUtils.ShiftKeepsDuration` | app/src/main/java/com/example/edtcustomwidget/CalendarUtils.kt:34-42 | each kept event comes from a complete input event through `AdjustEvent` and has that event's `end - start` |
| `CalendarUtils.FetchCalendarEvents` | app/src/main/java/com/example/edtcustomwidget/CalendarUtils.kt:20-60 | a failed fetch or parse, or a feed with no calendar, gives []; otherwise exactly the conversion of the first calendar's events, so at most as many |
| `TimeUtils.Trunc` | app/src/main/java/com/example/edtcustomwidget/TimeUtils.kt:4 | `toInt` truncates toward zero: floor for non-negative values, ceiling for negative ones |
| `TimeUtils.NatToString` | app/src/main/java/com/example/edtcustomwidget/TimeUtils.kt:6 | the hour is written in decimal digits with no zero padding |
| `TimeUtils.IntToString` | app/src/main/java/com/example/edtcustomwidget/TimeUtils.kt:6 | the `Int` template: a leading minus exactly for negatives, followed by the decimal digits of the magnitude |
| `TimeUtils.NatToStringRoundTrip` | app/src/main/java/com/example/edtcustomwidget/TimeUtils.kt:6 | the decimal text of an hour reads back as that hour |
| `TimeUtils.ParseIntOfString` | app/src/main/java/com/example/edtcustomwidget/TimeUtils.kt:6 | the decimal text of any `Int`, minus sign included, reads back as that number |
| `TimeUtils.ParseHourLabelOfParts` | app/src/main/java/com/example/edtcustomwidget/TimeUtils.kt:5-6 | a label made of an hour, "h" and "30" or "00" reads back as that hour and that half-hour flag |
| `TimeUtils.ToHourString` | app/src/main/java/com/example/edtcustomwidget/TimeUtils.kt:3-7 | the label is the decimal text of the hour truncated toward zero, then "h", then "30" when the fractional part is ≥ 0.5 and "00" otherwise |
| `TimeUtils.ToHourStringRoundTrip` | app/src/main/java/com/example/edtcustomwidget/TimeUtils.kt:3-7 | the label is the hour, "h", then "30" or "00". It parses back to the truncated hour, with "30" iff the fractional part is ≥ 0.5 |
| `TimeUtils.LabelRoundsDownToHalfHour` | app/src/main/java/com/example/edtcustomwidget/TimeUtils.kt:4-6 | any value in [n, n+0.5) reads "nh00" and any value in [n+0.5, n+1) reads "nh30" |
| `TimeUtils.WholeAndHalfHours` | app/src/main/java/com/example/edtcustomwidget/MyCalendarWidget.kt:29-30 | n gives "nh00" and n + 0.5 gives "nh30"; 8.0 is "8h00" and 9.5 is "9h30" |
| `Sorting.SortBy` | app/src/main/java/com/example/edtcustomwidget/MainActivity.kt:35 | `sortedBy` returns a permutation of its input |
| `Sorting.SortBySorted` | app/src/main/java/com/example/edtcustomwidget/MainActivity.kt:35 | `sortedBy` returns a list ascending by the selector |
| `Sorting.SortByStable` | app/src/main/java/com/example/edtcustomwidget/MyCalendarWidget.kt:144 | for every key, the elements with that key are in the same order in the result as in the input |
| `Sorting.SortBySortedIdentity` | app/src/main/java/com/example/edtcustomwidget/MyCalendarWidget.kt:144 | a list already ascending by the selector is returned unchanged |
| `Lex.LexLeReflexive` | app/src/main/java/com/example/edtcustomwidget/MyCalendarWidget.kt:163 | `date >= today` holds when both are the same date |
| `Lex.LexLeTotal` | app/src/main/java/com/example/edtcustomwidget/MyCalendarWidget.kt:160 | any two date strings are comparable |
| `Lex.LexLeAntisymmetric` | app/src/main/java/com/example/edtcustomwidget/MyCalendarWidget.kt:160 | strings ordered both ways are equal |
| `Lex.LexLeTransitive` | app/src/main/java/com/example/edtcustomwidget/MyCalendarWidget.kt:160 | the string order is transitive |
| `MyCalendarWidget.AddInt32` | app/src/main/java/com/example/edtcustomwidget/MyCalendarWidget.kt:206-211 | `Int` addition: exact when in range, otherwise congruent modulo 2^32 |
| `MyCalendarWidget.EventsOn` | app/src/main/java/com/example/edtcustomwidget/MyCalendarWidget.kt:112-115 | reference filter: the events whose date is the given one, in input order; [] when none has it |
| `MyCalendarWidget.GroupBy` | app/src/main/java/com/example/edtcustomwidget/MyCalendarWidget.kt:112 | `groupBy { it.date }` has a key for each date that occurs and no other, holding exactly that date's events in input order |
| `MyCalendarWidget.FindDateWithEvents` | app/src/main/java/com/example/edtcustomwidget/MyCalendarWidget.kt:100-116 | never null; returns the target date with exactly its events in input order, [] when it has none |
| `MyCalendarWidget.SortedDates` | app/src/main/java/com/example/edtcustomwidget/MyCalendarWidget.kt:158-160 | the keys of `toSortedMap()` are the distinct event dates, strictly ascending |
| `MyCalendarWidget.InsertDate` | app/src/main/java/com/example/edtcustomwidget/MyCalendarWidget.kt:160 | adding a date to a strictly ascending key list keeps it strictly ascending, with that date added |
| `MyCalendarWidget.FirstNotBeforeIsLeast` | app/src/main/java/com/example/edtcustomwidget/MyCalendarWidget.kt:162-163 | the first sorted date that is ≥ today is ≤ every other date that is ≥ today |
| `MyCalendarWidget.FirstDateFrom` | app/src/main/java/com/example/edtcustomwidget/MyCalendarWidget.kt:162-165 | the loop stops at the first date ≥ today; every date before it is < today; it runs off the end only when no date is ≥ today |
| `MyCalendarWidget.NoDateNotBefore` | app/src/main/java/com/example/edtcustomwidget/MyCalendarWidget.kt:158-165 | when no key of the sorted map is ≥ today, no event date is ≥ today, so null is right |
| `MyCalendarWidget.FirstDateNotBefore` | app/src/main/java/com/example/edtcustomwidget/MyCalendarWidget.kt:158-163 | the first key ≥ today is the least event date ≥ today, and it has at least one event |
| `MyCalendarWidget.FindNextDateWithEvents` | app/src/main/java/com/example/edtcustomwidget/MyCalendarWidget.kt:156-166 | null iff no event date is ≥ today. Otherwise the least event date ≥ today, with exactly its events in input order; unreachable from the widget in this revision |
| `MyCalendarWidget.FetchCalendarEvent` | app/src/main/java/com/example/edtcustomwidget/MyCalendarWidget.kt:168-190 | a non-empty result requires a cached list and `now - timestamp < 21,600,000` (default timestamp 0); a present, decodable, fresh cache is returned as stored; a cache that fails to decode gives [] |
| `MyCalendarWidget.MissingTimestampRejects` | app/src/main/java/com/example/edtcustomwidget/MyCalendarWidget.kt:172-177 | with no stored timestamp, the cache is rejected for every `now ≥ 21,600,000` |
| `MyCalendarWidget.SixHoursIsStale` | app/src/main/java/com/example/edtcustomwidget/MyCalendarWidget.kt:175-177 | the age test is strict: rejected at exactly six hours, used one millisecond before |
| `MyCalendarWidget.RoomInfo` | app/src/main/java/com/example/edtcustomwidget/MyCalendarWidget.kt:146 | a known room gives "Salle : " followed by the room name, a missing room gives "Salle non spécifiée", and the two forms cannot be confused |
| `MyCalendarWidget.CellText` | app/src/main/java/com/example/edtcustomwidget/MyCalendarWidget.kt:136-150 | only the empty-day cell reads "Aucun cours prévu"; a class cell starts with its start label and ends with its room line |
| `MyCalendarWidget.CellColor` | app/src/main/java/com/example/edtcustomwidget/MyCalendarWidget.kt:139-151 | the empty-day cell is `Color.LTGRAY`; a class cell takes the class's colour |
| `MyCalendarWidget.ClassCellText` | app/src/main/java/com/example/edtcustomwidget/MyCalendarWidget.kt:145-151 | a class cell has the class colour, starts with its start label and ends with "Salle : room", or "Salle non spécifiée" when the room is missing |
| `MyCalendarWidget.ClassCells` | app/src/main/java/com/example/edtcustomwidget/MyCalendarWidget.kt:144-152 | `forEach` adds one class cell per event, in the given order |
| `MyCalendarWidget.DisplayOrder` | app/src/main/java/com/example/edtcustomwidget/MyCalendarWidget.kt:144 | `sortedBy { it.startHour }`: ascending by start hour, a permutation of the day's events, and stable for equal start hours |
| `MyCalendarWidget.DayCells` | app/src/main/java/com/example/edtcustomwidget/MyCalendarWidget.kt:136-153 | an empty day gives exactly the "no classes" cell; otherwise one cell per class and no "no classes" cell |
| `MyCalendarWidget.DayCellsShowDay` | app/src/main/java/com/example/edtcustomwidget/MyCalendarWidget.kt:136-153 | an empty day gives exactly one "no classes" cell. Otherwise one cell per class, ordered by a stable ascending sort on `startHour` that is a permutation of the day's events |
| `MyCalendarWidget.AddDayCells` | app/src/main/java/com/example/edtcustomwidget/MyCalendarWidget.kt:136-153 | the cells added one by one are exactly the day's cells |
| `MyCalendarWidget.GenerateTimetableView` | app/src/main/java/com/example/edtcustomwidget/MyCalendarWidget.kt:118-154 | the view shows the target date and the cells of exactly that date's events; the "Erreur de date" branch is unreachable |
| `MyCalendarWidget.WidgetPrefs.constructor` | app/src/main/java/com/example/edtcustomwidget/MyCalendarWidget.kt:90-93 | the offset key starts out absent |
| `MyCalendarWidget.WidgetPrefs.CurrentOffset` | app/src/main/java/com/example/edtcustomwidget/MyCalendarWidget.kt:90-93 | the offset reads as 0 when never set, else as the stored value |
| `MyCalendarWidget.WidgetPrefs.SetCurrentDateOffset` | app/src/main/java/com/example/edtcustomwidget/MyCalendarWidget.kt:95-98 | stores the given offset |
| `MyCalendarWidget.WidgetPrefs.OnReceive` | app/src/main/java/com/example/edtcustomwidget/MyCalendarWidget.kt:200-214 | PREVIOUS_DAY stores old − 1 and NEXT_DAY old + 1 (32-bit). REFRESH_WIDGET and any other action leave the stored offset unchanged |
| `MyCalendarWidget.WidgetPrefs.UpdateWidget` | app/src/main/java/com/example/edtcustomwidget/MyCalendarWidget.kt:45-57 | rendering writes back the offset it read, so in this sequential model it never moves (the race with `onReceive` is under "## Left out"). The view shows the day `today + offset` from the cache-gated events |
| `MyCalendarWidget.NavigationCancels` | app/src/main/java/com/example/edtcustomwidget/MyCalendarWidget.kt:204-213 | NEXT_DAY then PREVIOUS_DAY (or the reverse) restores any offset, wrap-around included |
| `MainActivity.StartingAfter` | app/src/main/java/com/example/edtcustomwidget/MainActivity.kt:34 | keeps each event starting strictly after now as often as it occurs, and no other |
| `MainActivity.StartingAfterWithKey` | app/src/main/java/com/example/edtcustomwidget/MainActivity.kt:34 | for a start after now, the filter keeps all events of that start in input order; for a start at or before now it keeps none |
| `MainActivity.UpcomingEvents` | app/src/main/java/com/example/edtcustomwidget/MainActivity.kt:33-35 | exactly the events starting strictly after now (an event starting at now is excluded), with their multiplicities, ascending by start |
| `MainActivity.UpcomingKeepsOrderOfTies` | app/src/main/java/com/example/edtcustomwidget/MainActivity.kt:35 | upcoming events with an equal start after now keep their order in the fetched list; no event starting at or before now appears |
| `MainActivity.FractionalHour` | app/src/main/java/com/example/edtcustomwidget/MainActivity.kt:56-57 | for a valid minute, `hour + minute/60` lies in [hour, hour + 1) and reaches hour + 0.5 exactly from minute 30 |
| `MainActivity.ToCalendarEvent` | app/src/main/java/com/example/edtcustomwidget/MainActivity.kt:50-70 | a record exists iff both instants decompose; it has title = event title, room = location, colour = `Color.GRAY`, the start's local date, and start and end hours = hour + minute/60 of the start and end instants |
| `MainActivity.CalendarEventsFor` | app/src/main/java/com/example/edtcustomwidget/MainActivity.kt:50-71 | at most one record per event; exactly one per event when nothing throws; each record comes from some event |
| `MainActivity.CalendarEventsForAppend` | app/src/main/java/com/example/edtcustomwidget/MainActivity.kt:50 | mapping `a + b` gives the records of `a` then those of `b`: input order is kept |
| `MainActivity.StoredHourLabel` | app/src/main/java/com/example/edtcustomwidget/MainActivity.kt:55-57 | for hour 0..23 and minute 0..59, `hour + minute/60` lies in [0, 24). Its label is the hour followed by "h30" from minute 30 and "h00" before |
| `MainActivity.StoreCachedEvents` | app/src/main/java/com/example/edtcustomwidget/MainActivity.kt:79-84 | the cache write replaces the stored list and leaves the timestamp untouched |
| `MainActivity.CacheEventsForWidget` | app/src/main/java/com/example/edtcustomwidget/MainActivity.kt:47-84 | caches exactly the records `CalendarEventsFor` maps from the events (at most one per event, in input order) and writes no timestamp |
| `MainActivity.WrittenCacheIsRejected` | app/src/main/java/com/example/edtcustomwidget/MainActivity.kt:80-84 | starting from empty preferences, the list the activity caches is rejected by the widget at every `now ≥ 21,600,000` |
| `MainActivity.WrittenCacheIsRejectedExample` | app/src/main/java/com/example/edtcustomwidget/MainActivity.kt:80-84 | one class cached on 2025-09-01 is stored, yet the widget reading it at once gets [] |
| `MainActivity.StoreCachedEventsStamped` | app/src/main/java/com/example/edtcustomwidget/MainActivity.kt:79-84 | corrected write: stores the list together with the write time |
| `MainActivity.CacheEventsForWidgetStamped` | app/src/main/java/com/example/edtcustomwidget/MainActivity.kt:47-84 | corrected `cacheEventsForWidget`: caches exactly the mapped records, with the write time as timestamp |
| `MainActivity.StampedCacheIsUsed` | app/src/main/java/com/example/edtcustomwidget/MainActivity.kt:79-84 | with the timestamp written, the widget reads back exactly the cached records for six hours and [] from then on |
| `MainActivity.OnCreate` | app/src/main/java/com/example/edtcustomwidget/MainActivity.kt:28-44 | the list shown is the upcoming events of the fetch. The cache receives the records of all fetched events, and the timestamp is unchanged |
| `MainActivity.OnCreateCachesAllEvents` | app/src/main/java/com/example/edtcustomwidget/MainActivity.kt:43 | when every instant decomposes, the cache holds one record per fetched event, past ones included. A failed fetch caches []. The upcoming list is never longer than the fetch |

## Findings

| source | as written | input that shows it | evidently intended | confidence | as-written member | corrected member |
|---|---|---|---|---|---|---|
| app/src/main/java/com/example/edtcustomwidget/MainActivity.kt:80-84 | the cache edit stores "cached_events" only. The widget reads "cache_timestamp" with default 0 (MyCalendarWidget.kt:172) and requires `now - timestamp < 6 h` (MyCalendarWidget.kt:177) | cache any list, then render at any `now ≥ 21,600,000` ms (any date after 1970-01-01 06:00 UTC): the widget gets [] and shows "no classes" | write `cache_timestamp = now` in the same edit | high (not executed) | `MainActivity.WrittenCacheIsRejected` | `MainActivity.StampedCacheIsUsed` |

## Left out

- The HTTP download and the Biweekly iCalendar parser are foreign I/O. Their outcome is the input `Feed`: the parsed calendars, or a failure.
- `println`, `Log` and `printStackTrace` only produce output.
- Gson is a foreign library. The stored JSON is modelled as `Decodable(list)`, assuming an exact round trip, or as `Undecodable`, which covers any exception while reading it back.
- SharedPreferences are modelled as values. A key read with the wrong type (`ClassCastException`, caught in `fetchCalendarEvent`) is not modelled.
- `java.util.Calendar` and `SimpleDateFormat` depend on locale and time zone, so they are inputs:
  - the decomposition of an instant (`clock`);
  - the date `today + offset` (`dateAt`);
  - today's date (`today`).
- The French title "Cours du EEEE dd MMMM" is not modelled; the view carries the `yyyy-MM-dd` date it is built from.
- Android plumbing is not modelled: RemoteViews, PendingIntents and the navigation buttons, AppWidgetManager, the REFRESH_WIDGET broadcast sent on a stale cache, `onUpdate`, and the per-widget-id loop of `refreshWidget`. `UpdateWidget` models the rendering of one widget.
- Coroutines and dispatchers are not modelled; every operation runs to completion before the next starts. `updateWidget` reads the offset and writes it back (MyCalendarWidget.kt:48-49) inside a `Dispatchers.IO` coroutine, so in the app a PREVIOUS_DAY or NEXT_DAY write from `onReceive` (MyCalendarWidget.kt:205-211) made in between is overwritten and that navigation step is lost. The sequential model cannot show this race.
- The RecyclerView that shows the upcoming list (EventAdapter.kt) is UI only.
- ColorUtils.kt is an Android colour conversion; the cache records use the fixed `Color.GRAY` anyway.
- The unused `HOURS` list is not modelled.
- Hours are reals, so the rounding of `minute / 60.0f` in `Float`, and `toInt` of NaN or out-of-range floats, are not modelled.
- Instants are unbounded integers, so 64-bit `Long` overflow in `+ 2 h` or in `now - timestamp` is not modelled.
- This code has no half-hour grid or interval merging: it shows one cell per class.
- Every complete event is kept, with no business-hours or weekday filter, and cached records are grey.
- The cache timestamp is never written; see "## Findings".
- StartingAfter, UpcomingEvents: `filter { it.start.after(Date()) }` reads the clock once per event; the model compares every event with one `now`, so "exactly the events starting after now" holds only when the clock does not move during the filter.
