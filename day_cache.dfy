/**
  The table of one day's values that `cacheHistoricalData` builds: one entry
  per slot label, each holding a temperature and a humidity reading per
  configured room.  The job first fills every entry with nulls, then
  resolves each slot from the hourly batch, overwriting only the readings
  whose entity is bound, and reports `Math.round((i + 1) / 288 * 100)` after
  slot i.
*/
module DayCache {
  import opened Wrappers
  import opened TimeGrid
  import opened Rooms
  import opened Samples
  import opened Resolver

  datatype RoomReading = RoomReading(temperature: Reading, humidity: Reading)

  /** The entry of one slot: `timeData`, keyed by room id. */
  type SlotData = map<RoomId, RoomReading>

  /** `dataCache`, keyed by slot label. */
  type Cache = map<string, SlotData>

  /** The hourly batch: the day's samples of each bound series. */
  type Hourly = map<Series, seq<Sample>>

  const NullReading: RoomReading := RoomReading(Missing, Missing)

  function RoomSet(rooms: seq<RoomId>): set<RoomId> {
    set r | r in rooms
  }

  /** The prefilled entry of a slot: null readings for every configured room. */
  function NullEntry(rooms: seq<RoomId>): (e: SlotData)
    ensures e.Keys == RoomSet(rooms)
    ensures forall r :: r in e ==> e[r] == NullReading
  {
    map r | r in rooms :: NullReading
  }

  /** The table after the prefill: every slot label, every room, null readings. */
  function Prefilled(rooms: seq<RoomId>): (c: Cache)
    ensures c.Keys == LabelSet()
    ensures forall k :: k in c ==> c[k] == NullEntry(rooms)
  {
    map k | k in LabelSet() :: NullEntry(rooms)
  }

  /** `hourlyData[key]`, an absent key read as no samples. */
  function SeriesData(hourly: Hourly, s: Series): seq<Sample> {
    if s in hourly then hourly[s] else []
  }

  function ReadingOf(x: RoomReading, q: Quantity): Reading {
    if q == Temperature then x.temperature else x.humidity
  }

  /** The readings of `room` after slot `i` of day `day` has been resolved: the
      bound quantities replaced by the hourly value, the others kept. */
  ghost function FilledReading(x: RoomReading, entities: map<RoomId, Binding>, hourly: Hourly,
                               room: RoomId, day: int, i: nat): RoomReading
  {
    RoomReading(
      if IsBound(entities, room, Temperature)
      then HourlyValue(SeriesData(hourly, Series(room, Temperature)), day, i) else x.temperature,
      if IsBound(entities, room, Humidity)
      then HourlyValue(SeriesData(hourly, Series(room, Humidity)), day, i) else x.humidity)
  }

  /** A slot entry after its slot has been resolved. */
  ghost function FillEntry(entry: SlotData, entities: map<RoomId, Binding>, hourly: Hourly,
                           day: int, i: nat): (e: SlotData)
    ensures e.Keys == entry.Keys
  {
    map r | r in entry :: FilledReading(entry[r], entities, hourly, r, day, i)
  }

  /** The table after slot `i` has been resolved (unchanged when its entry is absent). */
  ghost function FillSlot(cache: Cache, entities: map<RoomId, Binding>, hourly: Hourly,
                          day: int, i: nat): (c: Cache)
    requires i < SlotsPerDay
  {
    var k := SlotLabel(i);
    if k in cache then cache[k := FillEntry(cache[k], entities, hourly, day, i)] else cache
  }

  /** The table after slots `from` to `to - 1` have been resolved in order. */
  ghost function FillRange(cache: Cache, entities: map<RoomId, Binding>, hourly: Hourly,
                           day: int, from: nat, to: nat): (c: Cache)
    requires from <= to <= SlotsPerDay
    decreases SlotsPerDay - from
  {
    if from == to then cache
    else FillRange(FillSlot(cache, entities, hourly, day, from), entities, hourly, day, from + 1, to)
  }

  /** Resolving a range of slots keeps the table's slot labels. */
  lemma {:induction false} FillRangeKeys(cache: Cache, entities: map<RoomId, Binding>, hourly: Hourly,
                                         day: int, from: nat, to: nat)
    requires from <= to <= SlotsPerDay
    ensures FillRange(cache, entities, hourly, day, from, to).Keys == cache.Keys
    decreases SlotsPerDay - from
  {
    if from < to {
      var next := FillSlot(cache, entities, hourly, day, from);
      FillRangeKeys(next, entities, hourly, day, from + 1, to);
      assert next.Keys == cache.Keys;
    }
  }

  /** Resolving a range of slots keeps the rooms of every slot entry. */
  lemma {:induction false} FillRangeEntryKeys(cache: Cache, entities: map<RoomId, Binding>, hourly: Hourly,
                                              day: int, from: nat, to: nat, k: string)
    requires from <= to <= SlotsPerDay && k in cache
    ensures k in FillRange(cache, entities, hourly, day, from, to)
    ensures FillRange(cache, entities, hourly, day, from, to)[k].Keys == cache[k].Keys
    decreases SlotsPerDay - from
  {
    if from < to {
      var next := FillSlot(cache, entities, hourly, day, from);
      assert k in next && next[k].Keys == cache[k].Keys;
      FillRangeEntryKeys(next, entities, hourly, day, from + 1, to, k);
    }
  }

  /** Resolving a range of slots rewrites a present slot of the range from its
      own slot index. */
  lemma {:induction false} FillRangeResolved(cache: Cache, entities: map<RoomId, Binding>, hourly: Hourly,
                                             day: int, from: nat, to: nat, i: nat)
    requires from <= i < to <= SlotsPerDay && SlotLabel(i) in cache
    ensures SlotLabel(i) in FillRange(cache, entities, hourly, day, from, to)
    ensures FillRange(cache, entities, hourly, day, from, to)[SlotLabel(i)]
              == FillEntry(cache[SlotLabel(i)], entities, hourly, day, i)
    decreases SlotsPerDay - from
  {
    var next := FillSlot(cache, entities, hourly, day, from);
    if i == from {
      forall j | from + 1 <= j < to ensures SlotLabel(j) != SlotLabel(i) {
        LabelsDistinct(j, i);
      }
      FillRangeUntouched(next, entities, hourly, day, from + 1, to, SlotLabel(i));
    } else {
      LabelsDistinct(i, from);
      FillRangeResolved(next, entities, hourly, day, from + 1, to, i);
    }
  }

  /** Resolving a range of slots leaves an entry outside the range as it was. */
  lemma {:induction false} FillRangeUntouched(cache: Cache, entities: map<RoomId, Binding>, hourly: Hourly,
                                              day: int, from: nat, to: nat, k: string)
    requires from <= to <= SlotsPerDay && k in cache
    requires forall j :: from <= j < to ==> SlotLabel(j) != k
    ensures k in FillRange(cache, entities, hourly, day, from, to)
    ensures FillRange(cache, entities, hourly, day, from, to)[k] == cache[k]
    decreases SlotsPerDay - from
  {
    if from < to {
      var next := FillSlot(cache, entities, hourly, day, from);
      FillRangeUntouched(next, entities, hourly, day, from + 1, to, k);
    }
  }

  /** The readings of room `r` for slot `i` once resolved from the prefill: the
      hourly value for a bound quantity, null for an unbound one. */
  ghost function ExpectedEntry(entities: map<RoomId, Binding>, hourly: Hourly,
                               r: RoomId, day: int, i: nat): RoomReading
  {
    RoomReading(
      if IsBound(entities, r, Temperature)
      then HourlyValue(SeriesData(hourly, Series(r, Temperature)), day, i) else Missing,
      if IsBound(entities, r, Humidity)
      then HourlyValue(SeriesData(hourly, Series(r, Humidity)), day, i) else Missing)
  }

  /** In table `c`, the entry of slot `i` holds room `r`: its resolved readings
      when `i < n`, and still null readings otherwise. */
  ghost predicate FilledUpTo(c: Cache, entities: map<RoomId, Binding>, hourly: Hourly,
                             day: int, n: nat, i: nat, r: RoomId)
    requires i < SlotsPerDay
  {
    && SlotLabel(i) in c && r in c[SlotLabel(i)]
    && c[SlotLabel(i)][r] == if i < n then ExpectedEntry(entities, hourly, r, day, i) else NullReading
  }

  /** After the prefill and an uninterrupted run over the first `n` slots, slot
      `i` holds the resolved readings of room `r` if it is among those slots, and
      null readings otherwise. */
  lemma PartialFillAt(rooms: seq<RoomId>, entities: map<RoomId, Binding>, hourly: Hourly,
                      day: int, n: nat, i: nat, r: RoomId)
    requires n <= SlotsPerDay && i < SlotsPerDay && r in rooms
    ensures FilledUpTo(FillRange(Prefilled(rooms), entities, hourly, day, 0, n), entities, hourly, day, n, i, r)
  {
    var p := Prefilled(rooms);
    var k := SlotLabel(i);
    assert k in p;
    assert p[k][r] == NullReading;
    if i < n {
      FillRangeResolved(p, entities, hourly, day, 0, n, i);
    } else {
      forall j | 0 <= j < n ensures SlotLabel(j) != k {
        LabelsDistinct(i, j);
      }
      FillRangeUntouched(p, entities, hourly, day, 0, n, k);
    }
  }

  /** The same for every slot and room at once; the table keeps its slot labels. */
  lemma PartialFill(rooms: seq<RoomId>, entities: map<RoomId, Binding>, hourly: Hourly, day: int, n: nat)
    requires n <= SlotsPerDay
    ensures FillRange(Prefilled(rooms), entities, hourly, day, 0, n).Keys == LabelSet()
    ensures forall i: nat, r :: i < SlotsPerDay && r in rooms ==>
      FilledUpTo(FillRange(Prefilled(rooms), entities, hourly, day, 0, n), entities, hourly, day, n, i, r)
  {
    FillRangeKeys(Prefilled(rooms), entities, hourly, day, 0, n);
    forall i: nat, r | i < SlotsPerDay && r in rooms
      ensures FilledUpTo(FillRange(Prefilled(rooms), entities, hourly, day, 0, n), entities, hourly, day, n, i, r)
    {
      PartialFillAt(rooms, entities, hourly, day, n, i, r);
    }
  }

  /** Whether any configured room has a bound entity: the condition under which
      the fill loop touches a slot entry at all. */
  predicate AnyBound(entities: map<RoomId, Binding>, rooms: seq<RoomId>) {
    exists j :: 0 <= j < |rooms| && (IsBound(entities, rooms[j], Temperature) || IsBound(entities, rooms[j], Humidity))
  }

  /** `getCachedData(timeIndex)`: the entry stored under the slot's label, if any. */
  function CachedData(cache: Cache, timeIndex: nat): (e: Option<SlotData>)
    requires timeIndex < SlotsPerDay
    ensures e.Some? <==> SlotLabel(timeIndex) in cache
    ensures e.Some? ==> e.value == cache[SlotLabel(timeIndex)]
  {
    var k := SlotLabel(timeIndex);
    if k in cache then Some(cache[k]) else None
  }

  /** The null prefill: for each slot in order, an entry holding null readings
      for every configured room. */
  method PrefillCache(rooms: seq<RoomId>) returns (c: Cache)
    ensures c == Prefilled(rooms)
  {
    c := map[];
    for i := 0 to SlotsPerDay
      invariant c.Keys == set j | 0 <= j < i :: SlotLabel(j)
      invariant forall k :: k in c ==> c[k] == NullEntry(rooms)
    {
      var timeData: SlotData := map[];
      for j := 0 to |rooms|
        invariant timeData.Keys == set r | r in rooms[..j]
        invariant forall r :: r in timeData ==> timeData[r] == NullReading
      {
        assert rooms[..j + 1] == rooms[..j] + [rooms[j]];
        timeData := timeData[rooms[j] := NullReading];
      }
      assert rooms[..|rooms|] == rooms;
      c := c[SlotLabel(i) := timeData];
    }
  }

  /** `getDataFromHourlyData` for one series of slot `i`. */
  method HourlyReading(hourly: Hourly, s: Series, day: int, i: nat) returns (v: Reading)
    ensures v == HourlyValue(SeriesData(hourly, s), day, i)
  {
    v := DataFromHourlyData(SeriesData(hourly, s), day, i);
  }

  /** Resolving one slot entry in place, room by room in configuration order:
      each bound quantity is overwritten with the hourly value of the slot. */
  method FillSlotEntry(entry: SlotData, rooms: seq<RoomId>, entities: map<RoomId, Binding>,
                       hourly: Hourly, day: int, i: nat) returns (e: SlotData)
    requires entry.Keys == RoomSet(rooms)
    ensures e == FillEntry(entry, entities, hourly, day, i)
  {
    e := entry;
    for j := 0 to |rooms|
      invariant e.Keys == entry.Keys
      invariant forall r :: r in entry ==>
        e[r] == if r in rooms[..j] then FilledReading(entry[r], entities, hourly, r, day, i) else entry[r]
    {
      var r := rooms[j];
      assert rooms[..j + 1] == rooms[..j] + [r];
      if IsBound(entities, r, Temperature) {
        var v := HourlyReading(hourly, Series(r, Temperature), day, i);
        e := e[r := e[r].(temperature := v)];
      }
      if IsBound(entities, r, Humidity) {
        var v := HourlyReading(hourly, Series(r, Humidity), day, i);
        e := e[r := e[r].(humidity := v)];
      }
    }
    assert rooms[..|rooms|] == rooms;
  }

  /** Resolving one more slot at the end of a range. */
  lemma {:induction false} FillRangeSnoc(cache: Cache, entities: map<RoomId, Binding>, hourly: Hourly,
                                         day: int, from: nat, to: nat)
    requires from <= to < SlotsPerDay
    ensures FillRange(cache, entities, hourly, day, from, to + 1)
         == FillSlot(FillRange(cache, entities, hourly, day, from, to), entities, hourly, day, to)
    decreases SlotsPerDay - from
  {
    if from < to {
      FillRangeSnoc(FillSlot(cache, entities, hourly, day, from), entities, hourly, day, from + 1, to);
    }
  }

  /** Two consecutive runs over adjacent ranges resolve the joined range. */
  lemma {:induction false} FillRangeCompose(cache: Cache, entities: map<RoomId, Binding>, hourly: Hourly,
                                            day: int, a: nat, b: nat, c: nat)
    requires a <= b <= c <= SlotsPerDay
    ensures FillRange(FillRange(cache, entities, hourly, day, a, b), entities, hourly, day, b, c)
         == FillRange(cache, entities, hourly, day, a, c)
    decreases SlotsPerDay - a
  {
    if a < b {
      var first := FillSlot(cache, entities, hourly, day, a);
      FillRangeCompose(first, entities, hourly, day, a + 1, b, c);
      assert FillRange(cache, entities, hourly, day, a, b) == FillRange(first, entities, hourly, day, a + 1, b);
      assert FillRange(cache, entities, hourly, day, a, c) == FillRange(first, entities, hourly, day, a + 1, c);
    }
  }

  /** Resolving any range of an empty table leaves it empty. */
  lemma {:induction false} FillRangeEmpty(entities: map<RoomId, Binding>, hourly: Hourly,
                                          day: int, from: nat, to: nat)
    requires from <= to <= SlotsPerDay
    ensures FillRange(map[], entities, hourly, day, from, to) == map[]
    decreases SlotsPerDay - from
  {
    if from < to {
      FillRangeEmpty(entities, hourly, day, from + 1, to);
    }
  }

  /** The first slot at or after `next` after which the fill loop yields
      (`i % 10 == 0`), or 288 when the loop runs to the end first. */
  function YieldSlot(next: nat): (y: nat)
    ensures next <= y || y == SlotsPerDay
    ensures y < SlotsPerDay ==> y % 10 == 0
    ensures forall i :: next <= i < y && i < SlotsPerDay ==> i % 10 != 0
    decreases SlotsPerDay - next
  {
    if next >= SlotsPerDay then SlotsPerDay
    else if next % 10 == 0 then next
    else YieldSlot(next + 1)
  }

  /** `Math.round((i + 1) / 288 * 100)`, ties rounded up. */
  function Progress(i: nat): (p: nat)
    requires i < SlotsPerDay
    ensures p <= 100
  {
    ((i + 1) * 100 + SlotsPerDay / 2) / SlotsPerDay
  }

  lemma DivMonotone(a: nat, b: nat, d: nat)
    requires a <= b && d > 0
    ensures a / d <= b / d
  {
    var qa, qb := a / d, b / d;
    assert qa * d <= a;
    assert b < (qb + 1) * d;
    if qb < qa {
      MulAtLeast(qa - qb, d);
    }
  }

  /** The reported progress never decreases and reaches 100 at the last slot. */
  lemma ProgressMonotone(i: nat, j: nat)
    requires i <= j < SlotsPerDay
    ensures Progress(i) <= Progress(j)
    ensures Progress(LastSlot) == 100
  {
    var a, b := (i + 1) * 100 + SlotsPerDay / 2, (j + 1) * 100 + SlotsPerDay / 2;
    DivMonotone(a, b, SlotsPerDay);
  }

  // ---------------------------------------------------------------------
  // The fill loop

  /** The table is empty, or holds every slot label with an entry for exactly the
      configured rooms. */
  predicate CacheShape(c: Cache, rooms: seq<RoomId>) {
    c == map[] || (c.Keys == LabelSet() && forall k :: k in c ==> c[k].Keys == RoomSet(rooms))
  }

  /** Resolving a range of slots keeps the shape of the table. */
  lemma FillRangeShape(cache: Cache, rooms: seq<RoomId>, entities: map<RoomId, Binding>,
                       hourly: Hourly, day: int, from: nat, to: nat)
    requires from <= to <= SlotsPerDay && CacheShape(cache, rooms)
    ensures CacheShape(FillRange(cache, entities, hourly, day, from, to), rooms)
  {
    var c := FillRange(cache, entities, hourly, day, from, to);
    if cache == map[] {
      FillRangeEmpty(entities, hourly, day, from, to);
    } else {
      FillRangeKeys(cache, entities, hourly, day, from, to);
      forall k | k in c ensures c[k].Keys == RoomSet(rooms) {
        FillRangeEntryKeys(cache, entities, hourly, day, from, to, k);
      }
    }
  }

  /** The slot just past the run of the fill loop that starts at `next`: the loop
      yields after resolving a slot whose index is a multiple of ten. */
  function FillStop(next: nat): (stop: nat)
    requires next < SlotsPerDay
    ensures next < stop <= SlotsPerDay
    ensures stop < SlotsPerDay ==> (stop - 1) % 10 == 0
    ensures forall i :: next <= i < stop - 1 ==> i % 10 != 0
  {
    var y := YieldSlot(next);
    if y < SlotsPerDay then y + 1 else SlotsPerDay
  }

  /** One pass of the fill loop's body over slot `i`, in a run that started at
      slot `next` on the table `cache` and has resolved the slots before `i` into
      `c`: each bound quantity of each configured room is overwritten with the
      hourly value.  On an empty table the entry is missing, and the first bound
      room throws. */
  method FillSlotStep(cache: Cache, c: Cache, rooms: seq<RoomId>, entities: map<RoomId, Binding>,
                      hourly: Hourly, day: int, next: nat, i: nat) returns (c': Cache, aborted: bool)
    requires next <= i < SlotsPerDay
    requires CacheShape(cache, rooms)
    requires c == FillRange(cache, entities, hourly, day, next, i)
    ensures aborted <==> cache == map[] && AnyBound(entities, rooms)
    ensures !aborted ==> c' == FillRange(cache, entities, hourly, day, next, i + 1)
  {
    var key := SlotLabel(i);
    assert key in LabelSet();
    FillRangeKeys(cache, entities, hourly, day, next, i);
    if key in cache {
      FillRangeEntryKeys(cache, entities, hourly, day, next, i, key);
    }
    c' := c;
    aborted := false;
    if key in c {
      var e := FillSlotEntry(c[key], rooms, entities, hourly, day, i);
      c' := c[key := e];
    } else if AnyBound(entities, rooms) {
      aborted := true;
    }
    if !aborted {
      FillRangeSnoc(cache, entities, hourly, day, next, i);
    }
  }

  /** One run of the fill loop of `cacheHistoricalData` from slot `next` to its
      next ten-millisecond yield or to the end of the day.  On a complete table
      (or with no bound room) it resolves every slot of the run, and `progress` is
      the rounded percentage of the last one; on an empty table with a bound room
      the first slot throws and nothing is written. */
  method FillSlots(cache: Cache, rooms: seq<RoomId>, entities: map<RoomId, Binding>,
                   hourly: Hourly, day: int, next: nat)
    returns (c: Cache, stop: nat, progress: nat, aborted: bool)
    requires CacheShape(cache, rooms) && next < SlotsPerDay
    ensures aborted <==> cache == map[] && AnyBound(entities, rooms)
    ensures !aborted ==> && stop == FillStop(next)
                         && c == FillRange(cache, entities, hourly, day, next, stop)
                         && progress == Progress(stop - 1)
  {
    c := cache;
    progress := 0;
    aborted := false;
    var i := next;
    ghost var end := FillStop(next);
    while i < SlotsPerDay
      invariant next <= i <= end
      invariant i == end ==> end == SlotsPerDay
      invariant c == FillRange(cache, entities, hourly, day, next, i)
      invariant cache == map[] && AnyBound(entities, rooms) ==> i == next
      invariant next < i ==> progress == Progress(i - 1)
      decreases SlotsPerDay - i
    {
      var step;
      c, step := FillSlotStep(cache, c, rooms, entities, hourly, day, next, i);
      if step {
        aborted := true;
        break;
      }
      progress := Progress(i);
      if i % 10 == 0 {
        i := i + 1;
        break;
      }
      i := i + 1;
    }
    stop := i;
  }
}
