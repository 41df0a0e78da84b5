# Wenshidu card: the temporal data engine

A Dafny model of the engine inside the `WenshiduCard` custom element, a
Home Assistant floor-plan card for room temperature and humidity. Each room
is drawn in a colour for its current reading. A timeline of 288 five-minute
slots lets the user look back at any slot of any day, or play a day back.
The model covers the parts of the card that decide which value is shown:

- **Time grid** (`TimeGrid`, `time_grid.dfy`). Instants are integer
  milliseconds of local time. A day has 288 slots. The module has the slot
  labels, the slot of an instant, the start of a slot, alignment to the
  five-minute grid, and the index clamp of the timeline.
- **Samples and resolvers** (`Samples`, `Resolver`). A history sample is a
  time and a state. The state is `unknown`, `unavailable`, `null`, a number or
  other text. Four resolvers turn a list of samples and a target instant into
  a value, `null` or `NaN`:
  - the ten-minute nearest-sample resolver of the day cache;
  - the exact-then-nearest resolver;
  - the interpolating resolver;
  - the nearest-value helper of the charts.
  The fallback chain of `updateRoomDataForTime` runs the second and, failing
  it, the third.
- **Day cache** (`DayCache`). The slot-label table that `cacheHistoricalData`
  builds: the null prefill, the fill loop that yields every ten slots, and
  the progress counter. `getCachedData` reads it.
- **Floor-plan display** (`RoomDisplay`). What each series of each room
  shows after a live, cached, default or history pass.
- **The card** (`CardState`, `Card`). The card's mutable state:
  - live and historical mode;
  - playback;
  - both slot indices and the day;
  - the three interval handles;
  - the cache job, held as a resumable state.
  Each event handler and timer tick is a method of the class
  `Card.WenshiduCard`, taking the instant `now` of the event.
- **Configuration helpers** (`Colors`, `RoomFormat`, `Stats`):
  - the colour ranges of `parseColorRanges` and `getColorForValue`;
  - the per-room font size and decimal places read by `setConfig`;
  - the chart statistics of `calculateStats`.

`Wrappers` holds `Option`. `Lists` holds a first-match search and a stable
insertion sort. These stand in for `Array.prototype.find` and
`Array.prototype.sort`. `Rooms` holds the room and entity bindings.

Things the card gets from its host are parameters:

- the clock `now`;
- the live entity states (a map from entity id to state);
- the fetched history lists;
- what `Number` and `parseFloat` make of a text.

Work that is deferred (a `setTimeout`, an awaited history query) is returned
to the caller as a `Followup` value. The caller later delivers the result
through `UpdateHistoricalData` or `HistoryArrived`. The cache job stops at
each `await` and resumes through `CacheFetched` and `CacheResume`. The
inner methods `ShowSlot`, `MoveDate`, `ShowNow` and `ShowPickedDay` are the
bodies of the slider, day, today and date-pick handlers after the
interaction is recorded. They exist only to keep each proof small.

### The chain and its interpolating stage

- **Samples 10:00 → 20.0 and 10:10 → 22.0, target 10:05.**
  - The interpolating stage on its own gives 21.0
    (`Resolver.InterpolationExample`).
  - The fallback chain the card runs gives 20.0 and never reaches that
    stage. Its first stage takes the nearest sample within thirty minutes
    (the earlier of the two at equal distance) (`Resolver.ChainExample`).
- **A single sample at 10:00.**
  - At 10:31 the sample is still returned: the target is first aligned
    down to 10:30, which is exactly thirty minutes away
    (`Resolver.OneSidedAligned`).
  - At 10:35 the result is `null` (`Resolver.OneSidedFar`).

### Other behaviour of the code kept as written

- Nothing in the file calls `cacheHistoricalData`. It is modelled on its own
  (`StartCaching`, `CacheFetched`, `CacheResume`).
- A call of `cacheHistoricalData` before the first render sets `isCaching`
  and clears the table, then throws on the missing shadow root. It hands
  back a rejected promise and leaves `isCaching` set with no promise, so
  the next call starts a job (`StartCaching`).
- `setMainRoom` tests only the main entity, so a room with the empty id and
  a truthy main entity becomes the main room. The history query then reads
  it as no main room (`SetMainRoom`, `MainRoomReady`).
- Colour keys are read as the code reads them, `-` first
  (`Colors.KeyRangeAsWritten`, used by `Colors.BuildRanges`).
- A room's decimal places are read as the code reads them, so a requested 0
  becomes 1 (`RoomFormat.FormatAsWritten`, used by `RoomFormat.RoomFormats`).
- The card's table is always either empty or complete: all 288 labels,
  each with an entry for exactly the configured rooms (`CacheShape`). Every
  handler keeps it so.
- If the table is cleared during a fill, the next slot entry is missing.
  When any room is bound, the read `timeData[room.id]` then throws. The
  job's `finally` resets the flags and leaves the table empty
  (`FillSlotStep`, `FillSlots`).
- The per-minute index refresh of `set hass` also runs in historical mode
  (`HassUpdate`).
- `getDataFromHourlyData` and `getHistoricalValueAtTime` exclude only the
  three sentinel states. A garbage state can therefore win and come out as
  `NaN`. `NaN` is not `null`, so the fallback chain stops there and the
  room shows "--" (`Resolver.AtTimeCanBeNaN`).
- The date picker runs `updateHistoricalData` before it clears the cache,
  so the cached entry of the old day can be drawn for the new one
  (`PickDate`).
- The inactivity return to live mode and the "today" button do not stop
  playback (`AutoSlideTick`, `SwitchToRealtimeMode`, `TodayButton`).
- `disconnectedCallback` clears the play interval but leaves `isPlaying`
  true, so a later play button press does nothing
  (`DisconnectedCallback`, `PlayTimeline`).
- Playback that crosses midnight moves to the next day but keeps the
  day's cache (`PlayTick`).
- A history result is applied whenever it arrives, even after the user has
  moved on. No staleness check exists (`HistoryArrived`).
- The colour key `-5-0` splits into `""`, `"5"` and `"0"`. `Number("")` is
  0, so its range is [0, 5] (`Colors.SplitPair`, `Colors.KeyRangeAsWritten`).

## Model

| member | source | states |
|---|---|---|
| TimeGrid.AtFields | wenshidu-card.js:1821-1827 | an instant built from in-range day, hour, minute, second and ms fields reads back exactly those fields |
| TimeGrid.FieldsOf | wenshidu-card.js:299-303 | every instant is the sum of its local fields, and each field is in its range |
| TimeGrid.SlotOf | wenshidu-card.js:299-308 | the slot `hour * 12 + floor(minute / 5)` of any instant lies in [0, 287] |
| TimeGrid.GridRoundTrip | wenshidu-card.js:1821-1827 | slot i of a day starts on that day at hour i / 12, minute (i % 12) * 5, second 0, ms 0, and the slot of that instant is i again (also `getSelectedDateTime`, 1914-1920) |
| TimeGrid.AlignToGridFields | wenshidu-card.js:1931-1936 | alignment keeps the day, hour, second and ms, and truncates the minute to a multiple of 5; the aligned instant is at most five minutes before the target and in the same slot; aligning twice changes nothing |
| TimeGrid.SlotStart | wenshidu-card.js:2033-2038 | the start of the slot holding t is t aligned with its seconds and milliseconds dropped |
| TimeGrid.ClampIndex | wenshidu-card.js:2186-2194 | the clamped index is never negative; on today it is at most `maxTimeIndex` (or 0), otherwise at most 287; an index already in range is kept |
| TimeGrid.LabelRoundTrip | wenshidu-card.js:288-296 | label i is `HH:MM` with the colon at position 2, and reading it back gives i |
| TimeGrid.LabelsDistinct | wenshidu-card.js:288-296 | distinct slots have distinct labels |
| TimeGrid.GenerateTimeSlots | wenshidu-card.js:288-296 | the loop yields exactly 288 labels, label i for every slot i |
| Lists.FindFirst | wenshidu-card.js:1978-1982 | the result is the first index from `from` whose element passes the test, or none when no element does |
| Lists.SortBy | wenshidu-card.js:1969 | the sorted list is a permutation of its input |
| Lists.SortBySorted | wenshidu-card.js:1969 | under a total preorder the sorted list is in order |
| Lists.SortByMembers | wenshidu-card.js:1969 | sorting keeps exactly the same members |
| Rooms.EntityFor | wenshidu-card.js:2106 | a series has an entity exactly when the room is bound and its entity id for the quantity is present and non-empty |
| Samples.ParseFloat | wenshidu-card.js:1807-1808 | `parseFloat` of a state is never `null`; it is a number exactly for a numeric state, and then that number |
| Samples.FirstNearestUnique | wenshidu-card.js:1796-1804 | at most one sample is the first usable sample nearest the target |
| Samples.NearestAmongExists | wenshidu-card.js:1796-1804 | a prefix holding a usable sample has a first-nearest usable sample |
| Samples.NearestIndex | wenshidu-card.js:1796-1804 | there is no nearest sample exactly when no sample is usable; otherwise it is the first usable sample at the least distance |
| Samples.FindNearest | wenshidu-card.js:1793-1805 | the running-minimum loop (strict `<`, starting from Infinity) finds the first nearest usable sample |
| Samples.ResolveNearestWithin | wenshidu-card.js:1793-1809 | the search followed by the distance test gives the parsed state of the first-nearest usable sample when it is within the limit, otherwise `null` |
| Samples.ResolveNearestSpec | wenshidu-card.js:1793-1811 | the result is `null` exactly when every usable sample is farther than the limit; otherwise it is the parsed state of the first-nearest usable sample, which is within the limit |
| Samples.ResolveNearestWiden | wenshidu-card.js:2089 | a wider limit never loses a value that a narrower one found |
| Resolver.DataFromHourlyData | wenshidu-card.js:1783-1812 | `null` exactly when no usable sample lies within ten minutes of the slot start; otherwise the parsed state of the first-nearest usable sample |
| Resolver.HistoricalValueAtTime | wenshidu-card.js:2055-2097 | the exact-then-nearest stage (the fetched series taken as given) computes its specification |
| Resolver.AtTimeSpec | wenshidu-card.js:2059-2091 | the first usable sample on a five-minute minute within 2.5 minutes of the aligned instant wins; without one, the first-nearest usable sample within thirty minutes does |
| Resolver.AtTimeMissing | wenshidu-card.js:2055-2097 | the first stage yields `null` exactly when no usable sample lies within thirty minutes of the aligned instant |
| Resolver.AtTimeCanBeNaN | wenshidu-card.js:2061-2070 | a garbage state exactly on the grid comes out as `NaN` |
| Resolver.ValidPoints | wenshidu-card.js:1958-1968 | filtering keeps at most as many points as samples |
| Resolver.ValidPointsMembers | wenshidu-card.js:1958-1968 | a point is kept exactly when it is the point of a sample whose state parses as a number |
| Resolver.TimeLeTotal | wenshidu-card.js:1969 | the time comparator is a total preorder |
| Resolver.SortedPointsSpec | wenshidu-card.js:1958-1969 | the sorted points are exactly the points of the numeric samples, in time order |
| Resolver.AfterIndex | wenshidu-card.js:1992-1999 | the scan stops at the first point later than the target, after only points not later than it |
| Resolver.InterpolatedValue | wenshidu-card.js:1931-2021 | the interpolating resolver never yields `NaN` |
| Resolver.PointsValue | wenshidu-card.js:1975-2021 | resolution over the filtered points never yields `NaN` |
| Resolver.PointsMissing | wenshidu-card.js:2002-2021 | over sorted points the result is `null` exactly when the points do not bracket the target and none lies within thirty minutes |
| Resolver.AfterIndexSorted | wenshidu-card.js:1992-1999 | over sorted points the scan stops just after the latest point not later than the target, at the earliest point later than it |
| Resolver.PointsBracket | wenshidu-card.js:2002-2010 | with no exact match and points on both sides, the result interpolates the latest earlier point and the earliest later one, with no distance limit |
| Resolver.PointsExact | wenshidu-card.js:1978-1986 | with an exact match, the result is the value of the earliest exact point |
| Resolver.BeforeAfter | wenshidu-card.js:1989-1999 | the loop returns the point just before the stop index as `before` and the point at it as `after`, each present exactly when it exists |
| Resolver.NearestHistoricalValue | wenshidu-card.js:1931-2021 | the method (align, filter, sort, exact match, scan, interpolate or one-sided fallback) computes the interpolating resolver |
| Resolver.SortedPointsTransfer | wenshidu-card.js:1958-1969 | bracketing, exact matches and the thirty-minute test mean the same over the sorted points as over the numeric samples |
| Resolver.InterpolatedMissing | wenshidu-card.js:1931-2021 | the interpolating resolver yields `null` exactly when the numeric samples do not bracket the aligned instant and none lies within thirty minutes of it |
| Resolver.SortedPointsOrdered | wenshidu-card.js:1969 | the sorted points are in time order |
| Resolver.SortedPointMember | wenshidu-card.js:1958-1969 | a sorted point is exactly the point of a numeric sample |
| Resolver.NumericPointIn | wenshidu-card.js:1958-1969 | the point of every numeric sample survives filtering and sorting |
| Resolver.BracketOnPoints | wenshidu-card.js:1958-1999 | facts about the numeric samples (no exact match, a sample on each side) hold of the sorted points |
| Resolver.LatestNumeric | wenshidu-card.js:1992-1999 | `before` is the point of a latest numeric sample not later than the target |
| Resolver.EarliestNumeric | wenshidu-card.js:1992-1999 | `after` is the point of an earliest numeric sample later than the target |
| Resolver.InterpolatedBracket | wenshidu-card.js:1989-2010 | with no exact match and numeric samples on both sides, the result is the interpolation between a latest earlier sample and an earliest later one |
| Resolver.InterpolatedExact | wenshidu-card.js:1978-1986 | with an exact numeric sample, the result is the value of an exact sample that no other exact sample precedes in time |
| Resolver.InterpolateBetween | wenshidu-card.js:2003-2009 | an interpolated value lies between the two neighbours' values and equals the earlier one at its own time |
| Resolver.ValueForTime | wenshidu-card.js:2106-2116 | the fallback chain (exact-then-nearest, then interpolating when that is `null`) computes its specification |
| Resolver.ChainMissing | wenshidu-card.js:2106-2133 | the chain yields `null` exactly when no usable sample is within thirty minutes and the numeric samples do not bracket the target |
| Resolver.InterpolationExample | wenshidu-card.js:2002-2010 | the interpolating resolver gives 21.0 at 10:05 between 20.0 at 10:00 and 22.0 at 10:10 |
| Resolver.ChainExample | wenshidu-card.js:2106-2116 | on the same samples the chain gives 20.0 |
| Resolver.OneSidedNear | wenshidu-card.js:2089-2091 | twenty minutes after a single sample the chain yields its value |
| Resolver.OneSidedAligned | wenshidu-card.js:2033-2038 | at 10:31, aligned to 10:30, a single sample at 10:00 is still taken |
| Resolver.OneSidedFar | wenshidu-card.js:2012-2021 | at 10:35 a single sample at 10:00 is too far and the chain yields `null` |
| Resolver.UnavailableExample | wenshidu-card.js:2061-2091 | samples that are all `unavailable` resolve to `null` |
| Resolver.ChartSamples | wenshidu-card.js:2646 | a chart entry is a usable sample exactly when it is a well-formed `[time, number]` pair |
| Resolver.FindNearestValue | wenshidu-card.js:2639-2657 | `null` exactly when no well-formed entry lies within `maxTimeDiff`; otherwise the value of the first-nearest well-formed entry |
| DayCache.NullEntry | wenshidu-card.js:1679-1689 | a prefilled slot entry has exactly the configured rooms, each with null readings |
| DayCache.Prefilled | wenshidu-card.js:1677-1690 | after the prefill every one of the 288 labels, and no other key, maps to the null entry |
| DayCache.FillEntry | wenshidu-card.js:1699-1706 | resolving a slot keeps the rooms of its entry |
| DayCache.FillRangeKeys | wenshidu-card.js:1695-1716 | the fill loop keeps the table's slot labels |
| DayCache.FillRangeEntryKeys | wenshidu-card.js:1695-1716 | the fill loop keeps the rooms of every slot entry |
| DayCache.FillRangeResolved | wenshidu-card.js:1695-1706 | a present slot inside the resolved range holds the entry resolved from its own slot index |
| DayCache.FillRangeUntouched | wenshidu-card.js:1695-1706 | an entry outside the resolved range is left as it was |
| DayCache.PartialFillAt | wenshidu-card.js:1677-1706 | after the first n slots are resolved, a bound series of a slot below n holds its hourly value and every other field is still null |
| DayCache.PartialFill | wenshidu-card.js:1677-1716 | the same for every slot and room at once, and the table keeps all 288 labels, so there are no holes at any yield |
| DayCache.CachedData | wenshidu-card.js:1815-1818 | the slot's entry is found exactly when its label is in the table, and it is the stored entry |
| DayCache.PrefillCache | wenshidu-card.js:1677-1690 | the prefill loop builds the null table |
| DayCache.HourlyReading | wenshidu-card.js:1700-1705 | one series of one slot is the ten-minute resolver over that series' fetched samples |
| DayCache.FillSlotEntry | wenshidu-card.js:1699-1706 | the room loop overwrites only bound series, and each with its hourly value of the slot |
| DayCache.FillRangeSnoc | wenshidu-card.js:1695-1716 | resolving one more slot extends the resolved range by that slot |
| DayCache.FillRangeCompose | wenshidu-card.js:1695-1716 | a run that yields and then resumes resolves the same table as one uninterrupted run |
| DayCache.FillRangeEmpty | wenshidu-card.js:1696-1697 | the fill loop leaves an empty table empty |
| DayCache.YieldSlot | wenshidu-card.js:1713-1715 | the first slot at or after `next` whose index is a multiple of ten, or 288 |
| DayCache.Progress | wenshidu-card.js:1709 | the progress is at most 100 |
| DayCache.ProgressMonotone | wenshidu-card.js:1709 | the progress never decreases, and it is 100 after the last slot |
| DayCache.FillRangeShape | wenshidu-card.js:1695-1716 | the fill loop keeps the table empty or complete |
| DayCache.FillStop | wenshidu-card.js:1713-1715 | a run from `next` stops just after the first slot that is a multiple of ten, or at 288 |
| DayCache.FillSlotStep | wenshidu-card.js:1696-1706 | one slot throws exactly when the table has been cleared and a room is bound; otherwise it extends the resolved range by one slot |
| DayCache.FillSlots | wenshidu-card.js:1695-1716 | the loop runs from `next` to its next yield, resolving exactly that range with the progress of its last slot, or throws at once on a cleared table |
| RoomDisplay.Shown | wenshidu-card.js:2144-2165 | a value is drawn as a number exactly when it is neither `null` nor `NaN` |
| RoomDisplay.ShowRoomsAt | wenshidu-card.js:1868-1877 | after a pass over the rooms, a redrawn series of a listed room shows its update; every other series is as before |
| RoomDisplay.LiveValue | wenshidu-card.js:2330-2360 | a series has a live value exactly when it is bound, its entity has a state and that state parses as a number; the value is that number |
| RoomDisplay.LivePass | wenshidu-card.js:2325-2419 | after the live pass every series of a listed room shows its live value or "--" |
| RoomDisplay.HistoryPass | wenshidu-card.js:2101-2133 | a bound series of a listed room shows the chain's value ("--" for `null` or `NaN`); an unbound series is not touched |
| RoomDisplay.CachePass | wenshidu-card.js:1865-1880 | a room present in the entry shows its cached readings; a room absent from it is not touched |
| RoomDisplay.LivePassLoop | wenshidu-card.js:2332-2414 | the loop of `updateRoomData` computes the live pass |
| RoomDisplay.CachePassLoop | wenshidu-card.js:1868-1877 | the loop of `updateDataFromCache` computes the cache pass |
| RoomDisplay.DefaultPassLoop | wenshidu-card.js:1888-1895 | the loop of `showDefaultData` shows "--" for both series of every room |
| RoomDisplay.HistoryPassLoop | wenshidu-card.js:2101-2134 | the loop of `updateRoomDataForTime` computes the history pass |
| Card.Lookup | wenshidu-card.js:1899 | a main entity is found exactly when the room is a key of the main entities, and it is that key's value |
| Card.InitialMainRoom | wenshidu-card.js:7 | the main room is the configured default when it is truthy, otherwise the first key of the main entities, if any |
| Card.HistoricalFollowup | wenshidu-card.js:1898-1911 | a history query is left pending exactly when a main room is ready and the slot is not cached; it asks for the slot's start |
| Card.ShiftMonth | wenshidu-card.js:1576-1588 | the picker month stays in 0..11 and moves by exactly `delta` months, wrapping into the neighbouring year |
| Card.WenshiduCard.constructor | wenshidu-card.js:2-61 | `setConfig`: today, live mode, not playing, no intervals, an empty cache, no caching job, both indices on the current slot, and the initial main room |
| Card.WenshiduCard.UpdateTimeline | wenshidu-card.js:2174-2194 | once rendered, the index is clamped to [0, maxTimeIndex] on today and to [0, 287] otherwise; before the first render nothing changes |
| Card.WenshiduCard.UpdateCurrentTimeIndex | wenshidu-card.js:299-314 | both indices become the slot of `now` |
| Card.WenshiduCard.Render | wenshidu-card.js:373-406 | the card is drawn and the index clamped, with the invariant kept |
| Card.WenshiduCard.UpdateRoomData | wenshidu-card.js:2325-2419 | in live mode, once rendered, every series shows its live value; otherwise nothing is drawn |
| Card.WenshiduCard.UpdateDataFromCache | wenshidu-card.js:1865-1886 | the current slot's cached entry is drawn for the rooms it holds; without an entry every room shows "--" |
| Card.WenshiduCard.UpdateHistoricalData | wenshidu-card.js:1898-1911 | nothing without a main room; the cached slot when there is one; otherwise a history query for the slot's start |
| Card.WenshiduCard.HistoryArrived | wenshidu-card.js:2101-2134 | a history result redraws every bound series with the chain over its own samples |
| Card.WenshiduCard.NewTimer | wenshidu-card.js:276 | every new interval gets a handle no earlier call returned |
| Card.WenshiduCard.HassUpdate | wenshidu-card.js:240-285 | on the first update only the render; afterwards the per-minute index refresh, the live redraw outside historical mode, a refresh interval when there is none, and a new scheduler interval |
| Card.WenshiduCard.RefreshIndices | wenshidu-card.js:255-259 | more than a minute after the last refresh both indices move to the current slot and the refresh time is recorded; otherwise nothing changes |
| Card.WenshiduCard.StartTimers | wenshidu-card.js:275-284 | the refresh interval is started only when there is none, and the scheduler interval is replaced by a fresh handle |
| Card.WenshiduCard.StartAutoSlideDetection | wenshidu-card.js:1483-1503 | the scheduler interval is replaced by a fresh handle and the other intervals are kept |
| Card.WenshiduCard.RefreshTick | wenshidu-card.js:276-280 | the 30-second tick redraws the live values in live mode only |
| Card.WenshiduCard.AutoSlideTick | wenshidu-card.js:1488-1502 | after more than a minute of inactivity in historical mode the card returns to live mode on today at the current slot and nothing else happens; otherwise, in live mode on today, a due advance moves both indices to the current slot |
| Card.WenshiduCard.SwitchToRealtimeMode | wenshidu-card.js:1506-1514 | live mode on today at the current slot with the live values drawn; playback and the cache are untouched |
| Card.WenshiduCard.CheckAutoAdvance | wenshidu-card.js:1517-1534 | an advance is due only in live mode on today, at second 0 of a five-minute minute, more than five seconds after the last; then the advance time is recorded |
| Card.WenshiduCard.AutoAdvanceToCurrentTimeSlot | wenshidu-card.js:1537-1557 | both indices move to the current slot only when it differs from the displayed one, and the live values are then drawn |
| Card.WenshiduCard.DisconnectedCallback | wenshidu-card.js:317-330 | every interval is cleared and nothing else changes |
| Card.WenshiduCard.PlayTimeline | wenshidu-card.js:1830-1839 | nothing while playing; otherwise playing, historical mode and a fresh play interval |
| Card.WenshiduCard.PlayTick | wenshidu-card.js:1839-1861 | each tick moves one slot on and queries its history; on today, past `maxTimeIndex` it clamps back and stops, so playback on today never crosses midnight; on another day, past 287 it goes to slot 0 of the next day and stops |
| Card.WenshiduCard.StopTimeline | wenshidu-card.js:2267-2279 | afterwards not playing and no play interval, whatever the state before, so a second call changes nothing |
| Card.WenshiduCard.RecordUserInteraction | wenshidu-card.js:1478-1480 | the interaction time becomes `now` |
| Card.WenshiduCard.SliderInput | wenshidu-card.js:1335-1355 | the index becomes the slider value, capped at `maxTimeIndex` on today; playback stops; historical mode; the cached slot is drawn and `updateHistoricalData` deferred; the cache is kept |
| Card.WenshiduCard.ShowSlot | wenshidu-card.js:1337-1352 | the slider handler after the interaction is recorded: the same state change |
| Card.WenshiduCard.DayButton | wenshidu-card.js:1358-1376 | the day moves by one, the index is clamped, the cache is cleared, historical mode is set even on today, and the slot's history is queried when a main room is ready |
| Card.WenshiduCard.MoveDate | wenshidu-card.js:1360-1365 | the day buttons after the interaction is recorded: the same state change |
| Card.WenshiduCard.TodayButton | wenshidu-card.js:1378-1393 | today at the current slot, the cache cleared, live mode and the live values drawn |
| Card.WenshiduCard.ShowNow | wenshidu-card.js:1380-1388 | the "today" button after the interaction is recorded: the same state change |
| Card.WenshiduCard.RoomClicked | wenshidu-card.js:1307-1318 | a configured room with a truthy main entity becomes the main room; otherwise the main room is kept |
| Card.WenshiduCard.SetMainRoom | wenshidu-card.js:2281-2287 | the room, the empty id included, becomes the main room exactly when its main entity is truthy; otherwise the main room is kept |
| Card.WenshiduCard.ShowDatePicker | wenshidu-card.js:1560-1569 | the picker opens on the given year and month |
| Card.WenshiduCard.ChangeMonth | wenshidu-card.js:1576-1588 | the picker moves by exactly one month, wrapping the year |
| Card.WenshiduCard.PickDate | wenshidu-card.js:1625-1643 | the picked day becomes current and the cache is cleared; today means live mode at the current slot with live values drawn; another day means historical mode, with the old cache consulted before the clear |
| Card.WenshiduCard.ShowPickedDay | wenshidu-card.js:1627-1641 | the date pick after the interaction is recorded: the same state change |
| Card.WenshiduCard.PlayButton | wenshidu-card.js:1401-1404 | the interaction is recorded and `playTimeline` runs |
| Card.WenshiduCard.StopButton | wenshidu-card.js:1406-1409 | the interaction is recorded; afterwards not playing and no play interval |
| Card.WenshiduCard.StartCaching | wenshidu-card.js:1655-1693 | while a job is in flight the same promise is returned and nothing changes; otherwise `isCaching` is set and the table cleared, and before the first render the call is rejected with no job, while once rendered a new promise is made and the table prefilled with nulls |
| Card.WenshiduCard.CacheFetched | wenshidu-card.js:1693-1716 | once the hourly batch arrives, the fill loop runs from slot 0 to its first yield |
| Card.WenshiduCard.CacheResume | wenshidu-card.js:1695-1716 | after a yield, the fill loop resumes where it stopped |
| Card.WenshiduCard.Fill | wenshidu-card.js:1695-1731 | one run resolves its slot range with its progress; at the end, or when it throws, `isCaching` is false and `cachePromise` is null |
| Colors.Compare | wenshidu-card.js:133 | the comparator's verdict is -1, 0 or 1, and 0 for equal bounds |
| Colors.CompareIsOrder | wenshidu-card.js:133 | away from `NaN` the comparator agrees with the order of the extended reals |
| Colors.InsertSorted | wenshidu-card.js:133 | inserting a range into a sorted list without `NaN` bounds keeps it sorted |
| Colors.SortSorted | wenshidu-card.js:133 | when no lower bound is `NaN` the ranges come out ascending by lower bound |
| Colors.InsertStable | wenshidu-card.js:133 | inserting keeps the order of the ranges with the same lower bound |
| Colors.SortStable | wenshidu-card.js:133 | the sort keeps ranges with the same lower bound in configured order |
| Colors.IndexOf | wenshidu-card.js:144 | the position of the first occurrence of a character, or the length |
| Colors.SplitPair | wenshidu-card.js:144 | the first two pieces of `key.split('-')`: neither holds a `-`, and they are the key's prefix up to the next `-` |
| Colors.KeyRangeAsWritten | wenshidu-card.js:142-159 | any key holding a `-` is read as the pair of its first two pieces, before the `<` and `>` prefixes are tried |
| Colors.KeyRange | wenshidu-card.js:142-159 | the `<` and `>` prefixes give a range below or above their number; every other key is read as written |
| Colors.BelowNegativeAsWritten | wenshidu-card.js:142-145 | the key `<-5` is read as the pair `"<"` and `"5"`, so its range starts at `NaN` and holds no value |
| Colors.BelowNegative | wenshidu-card.js:146-149 | with the prefixes tried first, `<-5` holds exactly the values up to -5 |
| Colors.BuildRanges | wenshidu-card.js:141-160 | one range per entry, in entry order, each read as the code reads its key |
| Colors.ParseColorRanges | wenshidu-card.js:124-165 | a falsy configuration gives `null`, a list its sorted copy, an object its ranges, read as the code reads the keys, sorted, anything else `null` |
| Colors.BelowNegativeColorsNothing | wenshidu-card.js:124-165 | an object whose one key is `<-5` colours no value |
| Colors.ColorRangesSortedPermutation | wenshidu-card.js:128-135 | a list yields a permutation of itself, ascending when no lower bound is `NaN`, with equal lower bounds kept in configured order |
| Colors.ColorFor | wenshidu-card.js:168-179 | a colour exactly when some range holds the value, and then the colour of the first such range |
| RoomFormat.IntOr | wenshidu-card.js:84 | `parseInt` with a default: the parsed number unless it is `NaN` or 0, which both give the default |
| RoomFormat.ClampDecimals | wenshidu-card.js:103 | the decimal places are clamped into [0, 3], keeping a value already in range |
| RoomFormat.Decimals | wenshidu-card.js:86-97 | the corrected reading: a parsed number is kept and only `NaN` falls back to one place |
| RoomFormat.FormatAsWritten | wenshidu-card.js:69-118 | the decimal places are in [0, 3], and a missing setting gives font size 40 and one decimal place |
| RoomFormat.FormatOf | wenshidu-card.js:80-103 | corrected, the decimal places are in [0, 3], one without a setting, and the font sizes are those of the code |
| RoomFormat.ZeroDecimalsAsWritten | wenshidu-card.js:86 | as written, the setting "10, 0" gives one decimal place |
| RoomFormat.RequestedDecimals | wenshidu-card.js:80-103 | corrected, any requested number of places is clamped into [0, 3], so "10, 0" gives none |
| RoomFormat.DecimalsAgree | wenshidu-card.js:86-97 | the written and corrected readings differ only on a requested 0 |
| RoomFormat.RoomFormats | wenshidu-card.js:69-118 | every configured id gets the settings of its last room, read as the code reads them, and no other id gets any |
| Stats.FirstMaxUnique | wenshidu-card.js:2574-2577 | only one point is the first with the greatest value |
| Stats.FirstMinUnique | wenshidu-card.js:2578-2581 | only one point is the first with the smallest value |
| Stats.SeriesExtremes | wenshidu-card.js:2573-2582 | there are no extremes exactly when the series is empty; otherwise the first greatest and first smallest points |
| Stats.CalculateStats | wenshidu-card.js:2564-2599 | for each series, no extremes exactly when it is empty, otherwise its first greatest and first smallest points with their times |

## Left out

- Rendering is not modelled: the shadow DOM, HTML and CSS, SVG geometry,
  the slider, labels, modals and errors. `updateRoomDisplay` is reduced to
  what each series shows, a number or "--".
- ECharts and the chart rendering are not part of this model. Only the
  chart helpers `findNearestValue` and `calculateStats` are modelled.
- The history queries, `fetchHourlyData`, the `_hass.states` reads and
  `checkAllEntities` are host I/O. Their results are parameters.
- Promises, `async`/`await`, `setInterval`/`setTimeout` and the
  ten-millisecond yields are replaced by explicit method calls. Interval
  handles are counted by `NewTimer`.
- The JavaScript `Date` is replaced by integer milliseconds of local time,
  with days of exactly 86,400,000 ms. Time zones, daylight saving and
  `setDate` month rollover are not modelled. The day is a day number, and
  "is today" compares it with the day of `now`. One `now` stands for the
  several clock reads of one handler. Because of that, the branch of the
  "today" button for a day that is not today cannot happen here.
- Interpolation and the `+ 0.1` of a single-value colour key use exact
  rational arithmetic, not IEEE doubles.
- `tempToColor`, `humidityToColor`, `stringToColor`, `toFixed` and
  `Math.round` formatting are not part of this model.
- `Number` and `parseFloat` on texts are parameters of the colour parser.
  For samples they are the state datatype. The splitting of a font-size
  setting at spaces and commas is not modelled: the setting is given as its
  pieces, already through `parseInt`.
- `Object.entries` order is taken as the order of the given entry list.
- Colors.ColorRangesSortedPermutation: for a list with a `NaN` lower bound
  the comparator is not consistent and engines may order it differently.
  The model's stable insertion sort is one such order, and only the
  permutation is stated then.
- Stats.CalculateStats: chart values are taken to be finite reals. A `NaN`
  point, which neither comparison lets in, is not modelled.
- Resolver.FindNearestValue: a `[time, NaN]` entry passes the JavaScript
  `typeof` test but is not modelled; chart entries are taken to carry
  finite numbers.
- Resolver.ResolveAt, Resolver.ValueForTime, Resolver.ChainMissing and
  Card.WenshiduCard.HistoryArrived: the two stages of the chain run separate
  history queries (wenshidu-card.js:2046 and 1944). Both are taken to return
  the same samples.
- The chart's own `roomDecimalPlaces[roomId] || 1` (wenshidu-card.js:2693)
  is not part of this model.
- The date picker's layout (`updateDatePicker`), `hideDatePicker`,
  `setHistoryDays` and the chart modals are not modelled. The picker only
  keeps its year and month.
- `rendered` stands for the existence of `this.content` and the shadow root.
  `Render` keeps only the timeline clamp of `render`.

## Findings

The rest of the model follows the code as written. Each corrected member
stands beside it and is used only to state the intended behaviour.

| source | as written | input that shows it | evidently intended | confidence | as-written member | corrected member |
|---|---|---|---|---|---|---|
| wenshidu-card.js:142-149 | a colour key is tested for `-` before the `<` and `>` prefixes, so `<-5` is read as the pair `"<"`-`"5"` with a `NaN` lower bound | colour key `<-5`: no value ever falls in its range | `<-5` means every value up to -5, like `<20` | not executed | Colors.BelowNegativeAsWritten | Colors.BelowNegative |
| wenshidu-card.js:86-97 | the second piece goes through `parseInt` with a default of 1, and 0 counts as missing, so a requested 0 becomes 1 decimal place, although the clamp at 103 and the display code at 2159-2164 support 0 | setting `room-data_font_size_round: "10, 0"` gives one decimal place | "10, 0" gives 0 decimal places | not executed | RoomFormat.ZeroDecimalsAsWritten | RoomFormat.RequestedDecimals |
