/**
  The card itself: its mode, playback, timer and cache state, and the event
  handlers and timer ticks that change it.

  Each handler or tick is one method call that takes the wall-clock instant
  `now` of the event (and the live entity states where the source reads
  them).  Work the source defers (a `setTimeout`, an awaited history query)
  is returned as a `Followup` for the host to deliver later, through
  `UpdateHistoricalData` or `HistoryArrived`.  The day-cache job is a
  resumable state: `StartCaching` returns at the first await, and
  `CacheFetched` and `CacheResume` each run the fill loop up to its next
  ten-millisecond yield.
*/
module Card {
  import opened Wrappers
  import opened TimeGrid
  import opened Rooms
  import opened Samples
  import opened Resolver
  import opened DayCache
  import opened RoomDisplay
  import opened CardState

  /** Inactivity in historical mode after which the scheduler returns to live mode. */
  const InactivityMs: int := 60_000
  /** Minimum gap between two automatic advances. */
  const AutoAdvanceGapMs: int := 5_000
  /** Minimum gap between two refreshes of `maxTimeIndex` on a hass update. */
  const MaxIndexRefreshMs: int := 60_000

  /** The parts of the card configuration the state machine reads. */
  datatype Config = Config(
    rooms: seq<RoomId>,
    entities: map<RoomId, Binding>,
    mainEntities: seq<(RoomId, EntityId)>,
    defaultMainRoom: Option<RoomId>)

  /** `mainEntities[room]` for an object whose keys are listed in order. */
  function Lookup(pairs: seq<(RoomId, EntityId)>, room: RoomId): (e: Option<EntityId>)
    ensures e.Some? <==> exists j :: 0 <= j < |pairs| && pairs[j].0 == room
    ensures e.Some? ==> exists j :: 0 <= j < |pairs| && pairs[j] == (room, e.value)
  {
    if |pairs| == 0 then None
    else if pairs[0].0 == room then Some(pairs[0].1)
    else
      var r := Lookup(pairs[1..], room);
      assert r.Some? ==> exists j :: 1 <= j < |pairs| && pairs[j] == (room, r.value) by {
        if r.Some? {
          var j :| 0 <= j < |pairs[1..]| && pairs[1..][j] == (room, r.value);
          assert pairs[j + 1] == (room, r.value);
        }
      }
      r
  }

  /** `config.default_main_room || Object.keys(mainEntities)[0]`. */
  function InitialMainRoom(cfg: Config): (r: Option<RoomId>)
    ensures cfg.defaultMainRoom.Some? && cfg.defaultMainRoom.value != "" ==> r == cfg.defaultMainRoom
    ensures !(cfg.defaultMainRoom.Some? && cfg.defaultMainRoom.value != "") ==>
      r == if |cfg.mainEntities| > 0 then Some(cfg.mainEntities[0].0) else None
  {
    if cfg.defaultMainRoom.Some? && cfg.defaultMainRoom.value != "" then cfg.defaultMainRoom
    else if |cfg.mainEntities| > 0 then Some(cfg.mainEntities[0].0)
    else None
  }

  /** `this.mainEntities[room]` is truthy. */
  predicate MainEntityTruthy(mainEntities: seq<(RoomId, EntityId)>, room: RoomId) {
    Lookup(mainEntities, room).Some? && Lookup(mainEntities, room).value != ""
  }

  /** `this.currentMainRoom && this.mainEntities[this.currentMainRoom]`, both truthy. */
  predicate MainRoomReady(mainEntities: seq<(RoomId, EntityId)>, current: Option<RoomId>) {
    current.Some? && current.value != "" && MainEntityTruthy(mainEntities, current.value)
  }

  /** Work a handler leaves for later. */
  datatype Followup =
    | NoFollowup
    | QueryHistory(target: int)   // `updateRoomDataForTime(target)` awaits the history of every bound series
    | DeferHistoricalData         // `setTimeout(() => this.updateHistoricalData(), 100)`

  /** `updateDataFromCache` on the entry of slot `idx`, or `showDefaultData` without one. */
  function FromCache(d: Screen, rooms: seq<RoomId>, cache: Cache, idx: nat): Screen
    requires idx < SlotsPerDay
  {
    match CachedData(cache, idx)
    case Some(e) => ShowRooms(d, rooms, CacheUpdate(e))
    case None => ShowRooms(d, rooms, DefaultUpdate())
  }

  /** What `updateHistoricalData` leaves pending: nothing without a main room or
      when the slot is cached, otherwise a history query for the slot's start. */
  function HistoricalFollowup(ready: bool, cache: Cache, idx: nat, day: int): (f: Followup)
    requires idx < SlotsPerDay
    ensures f.QueryHistory? <==> ready && SlotLabel(idx) !in cache
    ensures f.QueryHistory? ==> f.target == DateTimeForIndex(day, idx)
    ensures !f.DeferHistoricalData?
  {
    if !ready || CachedData(cache, idx).Some? then NoFollowup
    else QueryHistory(DateTimeForIndex(day, idx))
  }

  /** What `updateHistoricalData` draws at once: the cached slot, when it is used. */
  function HistoricalDisplay(d: Screen, rooms: seq<RoomId>, ready: bool, cache: Cache, idx: nat): Screen
    requires idx < SlotsPerDay
  {
    if ready && CachedData(cache, idx).Some? then FromCache(d, rooms, cache, idx) else d
  }

  /** `changeMonth(delta)`: the month moves by `delta`, wrapping into the
      neighbouring year. */
  function ShiftMonth(year: int, month: int, delta: int): (r: (int, int))
    requires 0 <= month <= 11 && -1 <= delta <= 1
    ensures 0 <= r.1 <= 11
    ensures r.0 * 12 + r.1 == year * 12 + month + delta
  {
    var m := month + delta;
    if m > 11 then (year + 1, 0)
    else if m < 0 then (year - 1, 11)
    else (year, m)
  }

  /** `checkAutoAdvance`'s trigger: a five-minute boundary at second 0, more than
      five seconds after the last automatic advance. */
  predicate AdvanceDue(now: int, lastAdvance: int) {
    MinuteOf(now) % SlotMinutes == 0 && SecondOf(now) == 0 && now - lastAdvance > AutoAdvanceGapMs
  }

  class WenshiduCard {
    const rooms: seq<RoomId>
    const entities: map<RoomId, Binding>
    const mainEntities: seq<(RoomId, EntityId)>
    const timeSlots: seq<string>

    /** Whether `render` has run (`this.content` and the shadow root exist). */
    var rendered: bool
    var isHistoricalMode: bool
    var isPlaying: bool
    var currentTimeIndex: int
    var maxTimeIndex: int
    /** `currentDate`, as a day number. */
    var currentDate: int
    var lastUserInteraction: int
    var lastAutoAdvanceTime: int
    var lastMaxIndexUpdate: int
    /** `playInterval`, `refreshInterval`, `autoSlideInterval`, and the next
        handle the host hands out. */
    var timers: Timers
    var dataCache: Cache
    /** `isCaching`, `cachePromise`, `cacheProgress`, the next promise, and the job. */
    var caching: Caching
    /** What the floor plan shows for each series. */
    var display: Screen
    var currentMainRoom: Option<RoomId>
    var pickerYear: int
    var pickerMonth: int

    /** Both indices on the grid and the picker on a month. */
    ghost predicate IndicesOk()
      reads this`currentTimeIndex, this`maxTimeIndex, this`pickerMonth
    {
      IndicesShape(currentTimeIndex, maxTimeIndex, pickerMonth)
    }

    /** The three interval handles are pairwise distinct and issued before
        `nextTimer`; none runs before the first render, and a play interval runs
        only while playing. */
    ghost predicate TimersOk()
      reads this`timers,
            this`rendered, this`isPlaying
    {
      TimersShape(timers, rendered, isPlaying)
    }

    /** The cache is empty or complete. */
    ghost predicate CacheOk()
      reads this`dataCache
    {
      CacheShape(dataCache, rooms)
    }

    /** The caching flags are in step with the job, the promise was handed out, and
        a yielded fill reports the progress of its last resolved slot. */
    ghost predicate JobOk()
      reads this`caching
    {
      JobShape(caching)
    }

    /** The invariant every handler keeps. */
    ghost predicate Valid()
      reads this
    {
      timeSlots == TimeSlots() && IndicesOk() && TimersOk() && CacheOk() && JobOk()
    }

    predicate IsToday(now: int)
      reads this`currentDate
    {
      currentDate == DayOf(now)
    }

    predicate MainReady()
      reads this`currentMainRoom
    {
      MainRoomReady(mainEntities, currentMainRoom)
    }

    /** `setConfig`: today's date, live mode, no timers, an empty cache, and both
        indices on the current slot. */
    constructor (cfg: Config, now: int)
      ensures Valid()
      ensures rooms == cfg.rooms && entities == cfg.entities && mainEntities == cfg.mainEntities
      ensures !rendered && !isHistoricalMode && !isPlaying
      ensures currentTimeIndex == SlotOf(now) && maxTimeIndex == SlotOf(now) && currentDate == DayOf(now)
      ensures lastUserInteraction == now && lastAutoAdvanceTime == 0 && lastMaxIndexUpdate == now
      ensures timers == Timers(None, None, None, 1)
      ensures dataCache == map[] && !caching.isCaching && caching.cachePromise.None? && caching.nextPromise == 1
      ensures caching.cacheProgress == 0 && caching.job == Idle
      ensures display == map[] && currentMainRoom == InitialMainRoom(cfg)
      ensures pickerYear == 0 && pickerMonth == 0
    {
      rooms := cfg.rooms;
      entities := cfg.entities;
      mainEntities := cfg.mainEntities;
      currentMainRoom := InitialMainRoom(cfg);
      currentDate := DayOf(now);
      currentTimeIndex := 0;
      isPlaying := false;
      timers := Timers(None, None, None, 1);
      lastUserInteraction := now;
      dataCache := map[];
      caching := Caching(false, None, 1, 0, Idle);
      isHistoricalMode := false;
      rendered := false;
      display := map[];
      pickerYear := 0;
      pickerMonth := 0;
      var slots := GenerateTimeSlots();
      assert slots == TimeSlots();
      timeSlots := slots;
      var index := SlotOf(now);
      currentTimeIndex := Max(0, Min(index, LastSlot));
      maxTimeIndex := index;
      lastAutoAdvanceTime := 0;
      lastMaxIndexUpdate := now;
    }

    // -------------------------------------------------------------------
    // Timeline and indices

    /** `updateTimeline`: once rendered, the index is clamped to `[0, maxTimeIndex]`
        on today and to `[0, 287]` on any other day. */
    method UpdateTimeline(now: int)
      requires IndicesOk()
      modifies this`currentTimeIndex
      ensures IndicesOk()
      ensures rendered && IsToday(now) ==> currentTimeIndex <= maxTimeIndex
      ensures currentTimeIndex ==
        if rendered then ClampIndex(old(currentTimeIndex), maxTimeIndex, IsToday(now)) else old(currentTimeIndex)
    {
      if !rendered {
        return;
      }
      currentTimeIndex := ClampIndex(currentTimeIndex, maxTimeIndex, IsToday(now));
    }

    /** `updateCurrentTimeIndex`: both indices become the slot of `now`, in either mode. */
    method UpdateCurrentTimeIndex(now: int)
      requires IndicesOk()
      modifies this`currentTimeIndex, this`maxTimeIndex
      ensures IndicesOk()
      ensures currentTimeIndex == SlotOf(now) && maxTimeIndex == SlotOf(now)
    {
      var index := SlotOf(now);
      currentTimeIndex := index;
      maxTimeIndex := index;
      currentTimeIndex := Min(currentTimeIndex, LastSlot);
      currentTimeIndex := Max(0, currentTimeIndex);
      if !isHistoricalMode && IsToday(now) && rendered {
        UpdateTimeline(now);
      }
    }

    /** `render`, reduced to its effect on the state: the card is drawn and the
        timeline clamped. */
    method Render(now: int)
      requires Valid() && !rendered
      modifies this`rendered, this`currentTimeIndex
      ensures Valid()
      ensures rendered
      ensures currentTimeIndex == ClampIndex(old(currentTimeIndex), maxTimeIndex, IsToday(now))
    {
      rendered := true;
      UpdateTimeline(now);
    }

    // -------------------------------------------------------------------
    // Drawing

    /** `updateRoomData`: in live mode, once rendered, both series of every room
        show their live value; in historical mode nothing is drawn. */
    method UpdateRoomData(live: map<EntityId, SampleState>)
      modifies this`display
      ensures display == if isHistoricalMode || !rendered then old(display)
                         else ShowRooms(old(display), rooms, LiveUpdate(entities, live))
    {
      if isHistoricalMode || !rendered {
        return;
      }
      display := LivePassLoop(display, rooms, entities, live);
    }

    /** `updateDataFromCache`: the cached entry of the current slot is drawn for
        the rooms it holds; without an entry every room shows "--". */
    method UpdateDataFromCache()
      requires IndicesOk()
      modifies this`display
      ensures display == FromCache(old(display), rooms, dataCache, currentTimeIndex)
    {
      var cached := CachedData(dataCache, currentTimeIndex);
      if cached.Some? {
        display := CachePassLoop(display, rooms, cached.value);
      } else {
        display := DefaultPassLoop(display, rooms);
      }
    }

    /** `updateHistoricalData`: nothing without a main room; the cached slot when
        there is one; otherwise a history query for the selected slot. */
    method UpdateHistoricalData() returns (f: Followup)
      requires IndicesOk()
      modifies this`display
      ensures f == HistoricalFollowup(MainReady(), dataCache, currentTimeIndex, currentDate)
      ensures display == HistoricalDisplay(old(display), rooms, MainReady(), dataCache, currentTimeIndex)
    {
      if !MainReady() {
        return NoFollowup;
      }
      var cached := CachedData(dataCache, currentTimeIndex);
      if cached.Some? {
        UpdateDataFromCache();
        return NoFollowup;
      }
      f := QueryHistory(DateTimeForIndex(currentDate, currentTimeIndex));
    }

    /** The end of `updateRoomDataForTime(target)`, once every bound series' history
        has arrived: each bound series shows the fallback chain's value over its
        own samples; unbound series are not touched. */
    method HistoryArrived(target: int, history: Hourly)
      modifies this`display
      ensures display == ShowRooms(old(display), rooms, HistoryUpdate(entities, history, target))
    {
      display := HistoryPassLoop(display, rooms, entities, history, target);
    }

    // -------------------------------------------------------------------
    // Timers

    /** `setInterval`: the host hands out a handle no earlier call returned. */
    method NewTimer() returns (h: nat)
      modifies this`timers
      ensures h == old(timers).nextTimer && timers == old(timers).(nextTimer := h + 1)
    {
      h := timers.nextTimer;
      timers := timers.(nextTimer := timers.nextTimer + 1);
    }

    /** `set hass`: the first update only renders.  Later ones refresh both
        indices when more than a minute has passed since the last refresh (in
        either mode), draw the live values in live mode, start the refresh
        interval if there is none, and restart the scheduler interval. */
    method HassUpdate(now: int, live: map<EntityId, SampleState>)
      requires Valid()
      modifies this`rendered, this`currentTimeIndex, this`maxTimeIndex, this`lastMaxIndexUpdate,
               this`display, this`timers
      ensures Valid()
      ensures rendered
      ensures !old(rendered) ==>
        && currentTimeIndex == ClampIndex(old(currentTimeIndex), maxTimeIndex, IsToday(now))
        && maxTimeIndex == old(maxTimeIndex) && lastMaxIndexUpdate == old(lastMaxIndexUpdate)
        && display == old(display) && timers == old(timers)
      ensures old(rendered) ==>
        var refreshed := now - old(lastMaxIndexUpdate) > MaxIndexRefreshMs;
        var slide := if old(timers).refreshInterval.Some? then old(timers).nextTimer else old(timers).nextTimer + 1;
        && currentTimeIndex == (if refreshed then SlotOf(now) else old(currentTimeIndex))
        && maxTimeIndex == (if refreshed then SlotOf(now) else old(maxTimeIndex))
        && lastMaxIndexUpdate == (if refreshed then now else old(lastMaxIndexUpdate))
        && display == (if isHistoricalMode then old(display)
                       else ShowRooms(old(display), rooms, LiveUpdate(entities, live)))
        && timers.playInterval == old(timers).playInterval
        && timers.refreshInterval == (if old(timers).refreshInterval.Some? then old(timers).refreshInterval else Some(old(timers).nextTimer))
        && timers.autoSlideInterval == Some(slide)
        && timers.nextTimer == slide + 1
    {
      if !rendered {
        Render(now);
        return;
      }
      RefreshIndices(now);
      if !isHistoricalMode {
        UpdateRoomData(live);
      }
      StartTimers();
    }

    /** The once-a-minute index refresh of `set hass`. */
    method RefreshIndices(now: int)
      requires Valid()
      modifies this`currentTimeIndex, this`maxTimeIndex, this`lastMaxIndexUpdate
      ensures Valid()
      ensures var refreshed := now - old(lastMaxIndexUpdate) > MaxIndexRefreshMs;
        && currentTimeIndex == (if refreshed then SlotOf(now) else old(currentTimeIndex))
        && maxTimeIndex == (if refreshed then SlotOf(now) else old(maxTimeIndex))
        && lastMaxIndexUpdate == (if refreshed then now else old(lastMaxIndexUpdate))
    {
      if now - lastMaxIndexUpdate > MaxIndexRefreshMs {
        UpdateCurrentTimeIndex(now);
        lastMaxIndexUpdate := now;
      }
    }

    /** The interval handling of `set hass`: the 30-second refresh interval is
        started when there is none, and the scheduler interval is restarted. */
    method StartTimers()
      requires Valid() && rendered
      modifies this`timers
      ensures Valid()
      ensures var slide := if old(timers).refreshInterval.Some? then old(timers).nextTimer else old(timers).nextTimer + 1;
        && timers.playInterval == old(timers).playInterval
        && timers.refreshInterval == (if old(timers).refreshInterval.Some? then old(timers).refreshInterval else Some(old(timers).nextTimer))
        && timers.autoSlideInterval == Some(slide)
        && timers.nextTimer == slide + 1
    {
      if timers.refreshInterval.None? {
        var h := NewTimer();
        timers := timers.(refreshInterval := Some(h));
      }
      StartAutoSlideDetection();
    }

    /** `startAutoSlideDetection`: the scheduler interval is replaced by a new one. */
    method StartAutoSlideDetection()
      requires TimersOk() && rendered
      modifies this`timers
      ensures TimersOk()
      ensures timers == old(timers).(autoSlideInterval := Some(old(timers).nextTimer), nextTimer := old(timers).nextTimer + 1)
    {
      timers := timers.(autoSlideInterval := None);
      var h := NewTimer();
      timers := timers.(autoSlideInterval := Some(h));
    }

    /** The 30-second refresh tick: live values are redrawn in live mode only. */
    method RefreshTick(live: map<EntityId, SampleState>)
      requires Valid() && timers.refreshInterval.Some?
      modifies this`display
      ensures Valid()
      ensures display == if isHistoricalMode then old(display)
                         else ShowRooms(old(display), rooms, LiveUpdate(entities, live))
    {
      if !isHistoricalMode && rendered {
        UpdateRoomData(live);
      }
    }

    /** The one-second scheduler tick.  After more than a minute without
        interaction in historical mode it returns to live mode and does nothing
        else; otherwise it runs `checkAutoAdvance`. */
    method AutoSlideTick(now: int, live: map<EntityId, SampleState>)
      requires Valid() && timers.autoSlideInterval.Some?
      modifies this`isHistoricalMode, this`currentDate, this`currentTimeIndex, this`maxTimeIndex,
               this`display, this`lastAutoAdvanceTime
      ensures Valid()
      ensures old(isHistoricalMode) && now - lastUserInteraction > InactivityMs ==>
        && !isHistoricalMode && currentDate == DayOf(now)
        && currentTimeIndex == SlotOf(now) && maxTimeIndex == SlotOf(now)
        && display == ShowRooms(old(display), rooms, LiveUpdate(entities, live))
        && lastAutoAdvanceTime == old(lastAutoAdvanceTime)
      ensures !(old(isHistoricalMode) && now - lastUserInteraction > InactivityMs) ==>
        var due := !old(isHistoricalMode) && old(IsToday(now)) && AdvanceDue(now, old(lastAutoAdvanceTime));
        var moved := due && old(currentTimeIndex) != SlotOf(now);
        && isHistoricalMode == old(isHistoricalMode) && currentDate == old(currentDate)
        && lastAutoAdvanceTime == (if due then now else old(lastAutoAdvanceTime))
        && currentTimeIndex == (if moved then SlotOf(now) else old(currentTimeIndex))
        && maxTimeIndex == (if moved then SlotOf(now) else old(maxTimeIndex))
        && display == (if moved then ShowRooms(old(display), rooms, LiveUpdate(entities, live)) else old(display))
    {
      if isHistoricalMode && now - lastUserInteraction > InactivityMs {
        SwitchToRealtimeMode(now, live);
        return;
      }
      CheckAutoAdvance(now, live);
    }

    /** `switchToRealtimeMode`: live mode on today at the current slot, live values
        drawn; playback and the cache are left as they are. */
    method SwitchToRealtimeMode(now: int, live: map<EntityId, SampleState>)
      requires IndicesOk() && rendered
      modifies this`isHistoricalMode, this`currentDate, this`currentTimeIndex, this`maxTimeIndex, this`display
      ensures IndicesOk()
      ensures !isHistoricalMode && currentDate == DayOf(now)
      ensures currentTimeIndex == SlotOf(now) && maxTimeIndex == SlotOf(now)
      ensures display == ShowRooms(old(display), rooms, LiveUpdate(entities, live))
    {
      isHistoricalMode := false;
      currentDate := DayOf(now);
      UpdateCurrentTimeIndex(now);
      UpdateTimeline(now);
      UpdateRoomData(live);
    }

    /** `checkAutoAdvance`: in live mode on today, when an advance is due, the
        advance time is recorded and `autoAdvanceToCurrentTimeSlot` runs. */
    method CheckAutoAdvance(now: int, live: map<EntityId, SampleState>)
      requires IndicesOk()
      modifies this`lastAutoAdvanceTime, this`currentTimeIndex, this`maxTimeIndex, this`display
      ensures IndicesOk()
      ensures var due := !isHistoricalMode && IsToday(now) && AdvanceDue(now, old(lastAutoAdvanceTime));
        var moved := due && old(currentTimeIndex) != SlotOf(now);
        && lastAutoAdvanceTime == (if due then now else old(lastAutoAdvanceTime))
        && currentTimeIndex == (if moved then SlotOf(now) else old(currentTimeIndex))
        && maxTimeIndex == (if moved then SlotOf(now) else old(maxTimeIndex))
        && display == (if moved && rendered then ShowRooms(old(display), rooms, LiveUpdate(entities, live))
                       else old(display))
    {
      if !isHistoricalMode && IsToday(now) {
        if MinuteOf(now) % SlotMinutes == 0 && SecondOf(now) == 0 {
          if now - lastAutoAdvanceTime > AutoAdvanceGapMs {
            lastAutoAdvanceTime := now;
            AutoAdvanceToCurrentTimeSlot(now, live);
          }
        }
      }
    }

    /** `autoAdvanceToCurrentTimeSlot`: when the displayed slot is not the current
        one, both indices move to it and, once rendered, the live values are drawn. */
    method AutoAdvanceToCurrentTimeSlot(now: int, live: map<EntityId, SampleState>)
      requires IndicesOk() && !isHistoricalMode && IsToday(now)
      modifies this`currentTimeIndex, this`maxTimeIndex, this`display
      ensures IndicesOk()
      ensures var moved := old(currentTimeIndex) != SlotOf(now);
        && currentTimeIndex == (if moved then SlotOf(now) else old(currentTimeIndex))
        && maxTimeIndex == (if moved then SlotOf(now) else old(maxTimeIndex))
        && display == (if moved && rendered then ShowRooms(old(display), rooms, LiveUpdate(entities, live))
                       else old(display))
    {
      var index := SlotOf(now);
      if currentTimeIndex != index {
        currentTimeIndex := index;
        maxTimeIndex := index;
        if rendered {
          UpdateTimeline(now);
          UpdateRoomData(live);
        }
      }
    }

    /** `disconnectedCallback`: every interval is cleared (`isPlaying` is left as is). */
    method DisconnectedCallback()
      requires Valid()
      modifies this`timers
      ensures Valid()
      ensures timers == old(timers).(playInterval := None, refreshInterval := None, autoSlideInterval := None)
    {
      timers := timers.(refreshInterval := None, playInterval := None, autoSlideInterval := None);
    }

    // -------------------------------------------------------------------
    // Playback

    /** `playTimeline`: nothing while playing; otherwise playing in historical
        mode with a new play interval. */
    method PlayTimeline()
      requires TimersOk() && rendered
      modifies this`isPlaying, this`isHistoricalMode, this`timers
      ensures TimersOk()
      ensures isPlaying
      ensures old(isPlaying) ==> && isHistoricalMode == old(isHistoricalMode)
                                 && timers == old(timers)
      ensures !old(isPlaying) ==> && isHistoricalMode
                                  && timers == old(timers).(playInterval := Some(old(timers).nextTimer),
                                                            nextTimer := old(timers).nextTimer + 1)
    {
      if isPlaying {
        return;
      }
      isPlaying := true;
      isHistoricalMode := true;
      var h := NewTimer();
      timers := timers.(playInterval := Some(h));
    }

    /** The 500 ms play tick.  The index moves one slot on; on today, past
        `maxTimeIndex` it is put back and playback stops; on another day, past
        the last slot it wraps to 0 on the next day and playback stops;
        otherwise the new slot's history is queried. */
    method PlayTick(now: int) returns (f: Followup)
      requires Valid() && timers.playInterval.Some?
      modifies this`currentTimeIndex, this`currentDate, this`isPlaying, this`timers
      ensures Valid()
      ensures old(IsToday(now)) && old(currentTimeIndex) + 1 > maxTimeIndex ==>
        && f == NoFollowup && currentTimeIndex == maxTimeIndex && currentDate == old(currentDate)
        && !isPlaying && timers == old(timers).(playInterval := None)
      ensures !old(IsToday(now)) && old(currentTimeIndex) == LastSlot ==>
        && f == NoFollowup && currentTimeIndex == 0 && currentDate == old(currentDate) + 1
        && !isPlaying && timers == old(timers).(playInterval := None)
      ensures (if old(IsToday(now)) then old(currentTimeIndex) + 1 <= maxTimeIndex
               else old(currentTimeIndex) < LastSlot) ==>
        && f == QueryHistory(DateTimeForIndex(currentDate, currentTimeIndex))
        && currentTimeIndex == old(currentTimeIndex) + 1 && currentDate == old(currentDate)
        && isPlaying == old(isPlaying) && timers == old(timers)
      ensures old(IsToday(now)) ==> currentTimeIndex <= maxTimeIndex
    {
      var index := currentTimeIndex + 1;
      if IsToday(now) && index > maxTimeIndex {
        currentTimeIndex := maxTimeIndex;
        StopTimeline();
        return NoFollowup;
      }
      if index > LastSlot {
        currentTimeIndex := 0;
        currentDate := currentDate + 1;
        StopTimeline();
        return NoFollowup;
      }
      currentTimeIndex := index;
      UpdateTimeline(now);
      f := QueryHistory(DateTimeForIndex(currentDate, currentTimeIndex));
    }

    /** `stopTimeline`: not playing and no play interval, whatever the state before;
        a second call changes nothing. */
    method StopTimeline()
      requires TimersOk()
      modifies this`isPlaying, this`timers
      ensures TimersOk()
      ensures !isPlaying && timers == old(timers).(playInterval := None)
    {
      isPlaying := false;
      timers := timers.(playInterval := None);
    }

    // -------------------------------------------------------------------
    // User events

    /** `recordUserInteraction`, the first step of every handler. */
    method RecordUserInteraction(now: int)
      modifies this`lastUserInteraction
      ensures lastUserInteraction == now
    {
      lastUserInteraction := now;
    }

    /** Slider input: the chosen slot (capped at `maxTimeIndex` on today) in
        historical mode, playback stopped, the cached slot drawn at once and
        `updateHistoricalData` deferred; the cache is kept. */
    method SliderInput(now: int, value: int) returns (f: Followup)
      requires Valid() && rendered && 0 <= value <= LastSlot
      modifies this`lastUserInteraction, this`currentTimeIndex, this`isHistoricalMode,
               this`isPlaying, this`timers, this`display
      ensures Valid()
      ensures f == DeferHistoricalData
      ensures lastUserInteraction == now && isHistoricalMode && !isPlaying
      ensures timers == old(timers).(playInterval := None)
      ensures currentTimeIndex == if IsToday(now) then Min(value, maxTimeIndex) else value
      ensures display == FromCache(old(display), rooms, dataCache, currentTimeIndex)
    {
      RecordUserInteraction(now);
      ShowSlot(now, value);
      f := DeferHistoricalData;
    }

    /** The body of the slider handler after the interaction is recorded: the new
        index, playback stopped, historical mode and the cached slot drawn. */
    method ShowSlot(now: int, value: int)
      requires IndicesOk() && TimersOk() && rendered && 0 <= value <= LastSlot
      modifies this`currentTimeIndex, this`isHistoricalMode, this`isPlaying, this`timers, this`display
      ensures IndicesOk() && TimersOk()
      ensures isHistoricalMode && !isPlaying
      ensures timers == old(timers).(playInterval := None)
      ensures currentTimeIndex == if IsToday(now) then Min(value, maxTimeIndex) else value
      ensures display == FromCache(old(display), rooms, dataCache, currentTimeIndex)
    {
      var newIndex := value;
      if IsToday(now) {
        newIndex := Min(newIndex, maxTimeIndex);
      }
      currentTimeIndex := newIndex;
      StopTimeline();
      UpdateTimeline(now);
      isHistoricalMode := true;
      UpdateDataFromCache();
    }

    /** The previous-day (`delta == -1`) and next-day (`delta == 1`) buttons: the
        date moves, the index is clamped for the new date, the cache is cleared
        and historical mode is set even when the new date is today; then
        `updateHistoricalData` runs on the empty cache. */
    method DayButton(now: int, delta: int) returns (f: Followup)
      requires Valid() && rendered && (delta == -1 || delta == 1)
      modifies this`lastUserInteraction, this`currentDate, this`currentTimeIndex, this`dataCache,
               this`isHistoricalMode, this`display
      ensures Valid()
      ensures lastUserInteraction == now && currentDate == old(currentDate) + delta
      ensures currentTimeIndex == ClampIndex(old(currentTimeIndex), maxTimeIndex, IsToday(now))
      ensures dataCache == map[] && isHistoricalMode && display == old(display)
      ensures f == if MainReady() then QueryHistory(DateTimeForIndex(currentDate, currentTimeIndex)) else NoFollowup
    {
      RecordUserInteraction(now);
      f := MoveDate(now, delta);
    }

    /** The body of the day buttons after the interaction is recorded. */
    method MoveDate(now: int, delta: int) returns (f: Followup)
      requires IndicesOk() && rendered
      modifies this`currentDate, this`currentTimeIndex, this`dataCache, this`isHistoricalMode, this`display
      ensures IndicesOk()
      ensures currentDate == old(currentDate) + delta
      ensures currentTimeIndex == ClampIndex(old(currentTimeIndex), maxTimeIndex, IsToday(now))
      ensures dataCache == map[] && isHistoricalMode && display == old(display)
      ensures f == if MainReady() then QueryHistory(DateTimeForIndex(currentDate, currentTimeIndex)) else NoFollowup
    {
      currentDate := currentDate + delta;
      UpdateTimeline(now);
      dataCache := map[];
      isHistoricalMode := true;
      f := UpdateHistoricalData();
    }

    /** The "today" button: today's date, both indices on the current slot, the
        cache cleared, live mode and the live values drawn.  (Its branch for a
        date that is not today cannot be taken once the date has just been set to
        today.) */
    method TodayButton(now: int, live: map<EntityId, SampleState>)
      requires Valid() && rendered
      modifies this`lastUserInteraction, this`currentDate, this`currentTimeIndex, this`maxTimeIndex,
               this`dataCache, this`isHistoricalMode, this`display
      ensures Valid()
      ensures lastUserInteraction == now && currentDate == DayOf(now)
      ensures currentTimeIndex == SlotOf(now) && maxTimeIndex == SlotOf(now)
      ensures dataCache == map[] && !isHistoricalMode
      ensures display == ShowRooms(old(display), rooms, LiveUpdate(entities, live))
    {
      RecordUserInteraction(now);
      ShowNow(now, live);
    }

    /** The body of the "today" button after the interaction is recorded. */
    method ShowNow(now: int, live: map<EntityId, SampleState>)
      requires IndicesOk() && rendered
      modifies this`currentDate, this`currentTimeIndex, this`maxTimeIndex,
               this`dataCache, this`isHistoricalMode, this`display
      ensures IndicesOk()
      ensures currentDate == DayOf(now)
      ensures currentTimeIndex == SlotOf(now) && maxTimeIndex == SlotOf(now)
      ensures dataCache == map[] && !isHistoricalMode
      ensures display == ShowRooms(old(display), rooms, LiveUpdate(entities, live))
    {
      currentDate := DayOf(now);
      UpdateCurrentTimeIndex(now);
      UpdateTimeline(now);
      dataCache := map[];
      isHistoricalMode := false;
      UpdateRoomData(live);
    }

    /** A click on a room: a configured room with a truthy main entity becomes the
        main room. */
    method RoomClicked(now: int, room: RoomId)
      requires Valid() && rendered
      modifies this`lastUserInteraction, this`currentMainRoom
      ensures Valid()
      ensures lastUserInteraction == now
      ensures currentMainRoom == if room in rooms && MainEntityTruthy(mainEntities, room) then Some(room)
                                 else old(currentMainRoom)
    {
      RecordUserInteraction(now);
      if room !in rooms {
        return;
      }
      SetMainRoom(room);
    }

    /** `setMainRoom`: a room with a truthy main entity becomes the main room,
        even the empty id, which the history query later reads as no main room. */
    method SetMainRoom(room: RoomId)
      modifies this`currentMainRoom
      ensures currentMainRoom == if MainEntityTruthy(mainEntities, room) then Some(room) else old(currentMainRoom)
    {
      var e := Lookup(mainEntities, room);
      if e.Some? && e.value != "" {
        currentMainRoom := Some(room);
      }
    }

    /** A click on the date opens the picker on today's month, given as `year`
        and `month` (0 to 11) of the host calendar. */
    method ShowDatePicker(now: int, year: int, month: int)
      requires Valid() && rendered && 0 <= month <= 11
      modifies this`lastUserInteraction, this`pickerYear, this`pickerMonth
      ensures Valid()
      ensures lastUserInteraction == now && pickerYear == year && pickerMonth == month
    {
      RecordUserInteraction(now);
      pickerYear := year;
      pickerMonth := month;
    }

    /** The picker's previous-month and next-month buttons. */
    method ChangeMonth(now: int, delta: int)
      requires Valid() && rendered && (delta == -1 || delta == 1)
      modifies this`lastUserInteraction, this`pickerYear, this`pickerMonth
      ensures Valid()
      ensures lastUserInteraction == now
      ensures (pickerYear, pickerMonth) == ShiftMonth(old(pickerYear), old(pickerMonth), delta)
      ensures pickerYear * 12 + pickerMonth == old(pickerYear) * 12 + old(pickerMonth) + delta
    {
      RecordUserInteraction(now);
      var shifted := ShiftMonth(pickerYear, pickerMonth, delta);
      pickerYear := shifted.0;
      pickerMonth := shifted.1;
    }

    /** A day picked in the date picker (`picked`, its day number).  Today: live
        mode, both indices on the current slot, live values drawn.  Another day:
        historical mode and `updateHistoricalData`, which still sees the old
        cache.  Either way the cache is cleared afterwards. */
    method PickDate(now: int, picked: int, live: map<EntityId, SampleState>) returns (f: Followup)
      requires Valid() && rendered
      modifies this`lastUserInteraction, this`currentDate, this`isHistoricalMode, this`currentTimeIndex,
               this`maxTimeIndex, this`display, this`dataCache
      ensures Valid()
      ensures lastUserInteraction == now && currentDate == picked && dataCache == map[]
      ensures picked == DayOf(now) ==>
        && f == NoFollowup && !isHistoricalMode
        && currentTimeIndex == SlotOf(now) && maxTimeIndex == SlotOf(now)
        && display == ShowRooms(old(display), rooms, LiveUpdate(entities, live))
      ensures picked != DayOf(now) ==>
        && f == HistoricalFollowup(MainReady(), old(dataCache), old(currentTimeIndex), picked)
        && isHistoricalMode
        && currentTimeIndex == old(currentTimeIndex) && maxTimeIndex == old(maxTimeIndex)
        && display == HistoricalDisplay(old(display), rooms, MainReady(), old(dataCache), old(currentTimeIndex))
    {
      RecordUserInteraction(now);
      f := ShowPickedDay(now, picked, live);
    }

    /** The body of the date picker's day handler after the interaction is
        recorded: the picked date, live mode at the current slot when it is today
        or historical mode and `updateHistoricalData` otherwise, the timeline
        clamped and the cache cleared. */
    method ShowPickedDay(now: int, picked: int, live: map<EntityId, SampleState>) returns (f: Followup)
      requires IndicesOk() && rendered
      modifies this`currentDate, this`isHistoricalMode, this`currentTimeIndex, this`maxTimeIndex,
               this`display, this`dataCache
      ensures IndicesOk()
      ensures currentDate == picked && dataCache == map[]
      ensures picked == DayOf(now) ==>
        && f == NoFollowup && !isHistoricalMode
        && currentTimeIndex == SlotOf(now) && maxTimeIndex == SlotOf(now)
        && display == ShowRooms(old(display), rooms, LiveUpdate(entities, live))
      ensures picked != DayOf(now) ==>
        && f == HistoricalFollowup(MainReady(), old(dataCache), old(currentTimeIndex), picked)
        && isHistoricalMode
        && currentTimeIndex == old(currentTimeIndex) && maxTimeIndex == old(maxTimeIndex)
        && display == HistoricalDisplay(old(display), rooms, MainReady(), old(dataCache), old(currentTimeIndex))
    {
      currentDate := picked;
      if IsToday(now) {
        isHistoricalMode := false;
        UpdateCurrentTimeIndex(now);
        UpdateRoomData(live);
        f := NoFollowup;
      } else {
        isHistoricalMode := true;
        f := UpdateHistoricalData();
      }
      UpdateTimeline(now);
      dataCache := map[];
    }

    /** The play button. */
    method PlayButton(now: int)
      requires Valid() && rendered
      modifies this`lastUserInteraction, this`isPlaying, this`isHistoricalMode, this`timers
      ensures Valid()
      ensures lastUserInteraction == now && isPlaying
      ensures old(isPlaying) ==> && isHistoricalMode == old(isHistoricalMode)
                                 && timers == old(timers)
      ensures !old(isPlaying) ==> && isHistoricalMode
                                  && timers == old(timers).(playInterval := Some(old(timers).nextTimer),
                                                            nextTimer := old(timers).nextTimer + 1)
    {
      RecordUserInteraction(now);
      PlayTimeline();
    }

    /** The stop button. */
    method StopButton(now: int)
      requires Valid() && rendered
      modifies this`lastUserInteraction, this`isPlaying, this`timers
      ensures Valid()
      ensures lastUserInteraction == now && !isPlaying && timers == old(timers).(playInterval := None)
    {
      RecordUserInteraction(now);
      StopTimeline();
    }

    // -------------------------------------------------------------------
    // The day cache

    /** `cacheHistoricalData` up to its first await.  While a job is running the
        same promise is returned and nothing changes.  Otherwise `isCaching` is
        set and the table cleared; before the first render the lookup of the
        play button then throws, and the call hands back a rejected promise with
        `isCaching` left set and no job.  Once rendered, the table is prefilled
        with nulls and the hourly batch is awaited. */
    method StartCaching() returns (promise: nat, rejected: bool)
      requires Valid()
      modifies this`caching, this`dataCache
      ensures Valid()
      ensures caching.isCaching
      ensures old(caching).isCaching && old(caching).cachePromise.Some? ==>
        && !rejected && promise == old(caching).cachePromise.value
        && dataCache == old(dataCache) && caching == old(caching)
      ensures !(old(caching).isCaching && old(caching).cachePromise.Some?) && !rendered ==>
        && rejected && promise == old(caching).nextPromise && dataCache == map[]
        && caching == old(caching).(isCaching := true, nextPromise := promise + 1)
      ensures !(old(caching).isCaching && old(caching).cachePromise.Some?) && rendered ==>
        && !rejected && promise == old(caching).nextPromise && dataCache == Prefilled(rooms)
        && caching == old(caching).(isCaching := true, job := Fetching, cachePromise := Some(promise),
                                    nextPromise := promise + 1)
    {
      if caching.isCaching && caching.cachePromise.Some? {
        return caching.cachePromise.value, false;
      }
      caching := caching.(isCaching := true);
      dataCache := map[];
      promise := caching.nextPromise;
      if !rendered {
        caching := caching.(nextPromise := promise + 1);
        return promise, true;
      }
      var table := PrefillCache(rooms);
      dataCache := table;
      rejected := false;
      caching := caching.(job := Fetching, cachePromise := Some(promise), nextPromise := promise + 1);
    }

    /** The state one run of the fill loop from slot `next` leaves, given the
        table `c0`, progress `p0`, promise `pr0` and next promise `n0` it started from.  With a
        complete table (or no bound room) the slots up to and including the
        yield slot are resolved, the progress is that of the last one, and the job
        either waits for its next run or finishes with the flags reset.  With a
        table emptied meanwhile and a bound room, the first slot throws: the job
        ends with the flags reset and the table and progress as they were. */
    ghost predicate FilledFrom(next: nat, hourly: Hourly, c0: Cache, p0: nat, pr0: Option<nat>, n0: nat)
      requires next < SlotsPerDay
      reads this`dataCache, this`caching, this`currentDate
    {
      var stop := FillStop(next);
      if c0 == map[] && AnyBound(entities, rooms) then
        && dataCache == c0 && caching.cacheProgress == p0 && caching.job == Idle && !caching.isCaching
        && caching.cachePromise.None? && caching.nextPromise == n0
      else
        && dataCache == FillRange(c0, entities, hourly, currentDate, next, stop)
        && caching.cacheProgress == Progress(stop - 1)
        && caching.job == (if stop < SlotsPerDay then Filling(stop, hourly) else Idle)
        && caching.isCaching == (stop < SlotsPerDay)
        && caching.cachePromise == (if stop < SlotsPerDay then pr0 else None)
        && caching.nextPromise == n0
    }

    /** The hourly batch has arrived: the fill loop starts at slot 0. */
    method CacheFetched(hourly: Hourly)
      requires Valid() && caching.job == Fetching
      modifies this`dataCache, this`caching
      ensures Valid()
      ensures FilledFrom(0, hourly, old(dataCache), old(caching).cacheProgress, old(caching).cachePromise,
                         old(caching).nextPromise)
    {
      Fill(0, hourly);
    }

    /** A ten-millisecond yield has elapsed: the fill loop resumes. */
    method CacheResume()
      requires Valid() && caching.job.Filling?
      modifies this`dataCache, this`caching
      ensures Valid()
      ensures FilledFrom(old(caching).job.next, old(caching).job.hourly, old(dataCache), old(caching).cacheProgress, old(caching).cachePromise,
                         old(caching).nextPromise)
    {
      Fill(caching.job.next, caching.job.hourly);
    }

    /** One run of the fill loop, from slot `next` to its next yield or its end. */
    method Fill(next: nat, hourly: Hourly)
      requires CacheOk() && JobOk() && next <= LastSlot
      requires (caching.job == Fetching && next == 0) || caching.job == Filling(next, hourly)
      modifies this`dataCache, this`caching
      ensures CacheOk() && JobOk()
      ensures FilledFrom(next, hourly, old(dataCache), old(caching).cacheProgress, old(caching).cachePromise,
                         old(caching).nextPromise)
    {
      var cache, stop, progress, aborted := FillSlots(dataCache, rooms, entities, hourly, currentDate, next);
      if aborted {
        caching := caching.(job := Idle, isCaching := false, cachePromise := None);
        return;
      }
      FillRangeShape(dataCache, rooms, entities, hourly, currentDate, next, stop);
      dataCache := cache;
      if stop < SlotsPerDay {
        caching := caching.(cacheProgress := progress, job := Filling(stop, hourly));
      } else {
        caching := caching.(cacheProgress := progress, job := Idle, isCaching := false, cachePromise := None);
      }
    }
  }
}
