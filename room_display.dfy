/**
  What the floor plan shows for each series, and the three ways the card
  rewrites it room by room: from the live states (`updateRoomData`), from a
  cached slot entry or the all-null default (`updateDataFromCache`,
  `showDefaultData`), and from the fallback chain over fetched history
  (`updateRoomDataForTime`).  A shown value is a number, or "--" for `null`
  and `NaN` alike.
*/
module RoomDisplay {
  import opened Wrappers
  import opened Rooms
  import opened Samples
  import opened DayCache
  import opened Resolver

  /** The shown value of each series that has been drawn at least once. */
  type Screen = map<Series, Option<real>>

  /** `updateRoomDisplay`: a value is drawn as a number unless it is `null` or `NaN`. */
  function Shown(r: Reading): (v: Option<real>)
    ensures v.Some? <==> r.Known?
    ensures r.Known? ==> v == Some(r.value)
  {
    if r.Known? then Some(r.value) else None
  }

  /** What one pass over the rooms does to a series: redraw it, or leave it. */
  datatype Update = Keep | Show(value: Option<real>)

  function ShowSeries(d: Screen, s: Series, u: Series -> Update): Screen {
    if u(s).Show? then d[s := u(s).value] else d
  }

  /** The screen after a pass over `rooms` in order, redrawing each room's
      temperature and then its humidity as `u` says. */
  function ShowRooms(d: Screen, rooms: seq<RoomId>, u: Series -> Update): Screen
    decreases |rooms|
  {
    if |rooms| == 0 then d
    else
      var r := rooms[|rooms| - 1];
      ShowSeries(ShowSeries(ShowRooms(d, rooms[..|rooms| - 1], u), Series(r, Temperature), u),
                 Series(r, Humidity), u)
  }

  /** After a pass, a series of a listed room that `u` redraws shows `u`'s value;
      every other series is exactly as before (drawn or not). */
  lemma {:induction false} ShowRoomsAt(d: Screen, rooms: seq<RoomId>, u: Series -> Update, s: Series)
    ensures s.room in rooms && u(s).Show? ==>
      s in ShowRooms(d, rooms, u) && ShowRooms(d, rooms, u)[s] == u(s).value
    ensures !(s.room in rooms && u(s).Show?) ==>
      && (s in ShowRooms(d, rooms, u) <==> s in d)
      && (s in d ==> ShowRooms(d, rooms, u)[s] == d[s])
    decreases |rooms|
  {
    if |rooms| > 0 {
      var init := rooms[..|rooms| - 1];
      ShowRoomsAt(d, init, u, s);
      assert rooms == init + [rooms[|rooms| - 1]];
      assert s.room in rooms <==> s.room in init || s.room == rooms[|rooms| - 1];
      assert s == Series(s.room, Temperature) || s == Series(s.room, Humidity) by {
        match s.quantity
        case Temperature =>
        case Humidity =>
      }
    }
  }

  // ---------------------------------------------------------------------
  // The three passes

  /** The live value of a series: the bound entity's state when it parses as a
      number, "--" when the series is unbound, its entity is missing from the
      states, or its state is a sentinel, empty or not numeric. */
  function LiveValue(entities: map<RoomId, Binding>, live: map<EntityId, SampleState>,
                     room: RoomId, q: Quantity): (v: Option<real>)
    ensures v.Some? <==> && IsBound(entities, room, q)
                         && EntityFor(entities, room, q).value in live
                         && live[EntityFor(entities, room, q).value].Num?
    ensures v.Some? ==> v.value == live[EntityFor(entities, room, q).value].v
  {
    match EntityFor(entities, room, q)
    case None => None
    case Some(e) => if e in live && live[e].Num? then Some(live[e].v) else None
  }

  /** `updateRoomData` redraws both series of every room. */
  function LiveUpdate(entities: map<RoomId, Binding>, live: map<EntityId, SampleState>): Series -> Update {
    (s: Series) => Show(LiveValue(entities, live, s.room, s.quantity))
  }

  /** `updateDataFromCache` redraws both series of the rooms present in the entry
      and leaves the other rooms alone. */
  function CacheUpdate(entry: SlotData): Series -> Update {
    (s: Series) => if s.room in entry then Show(Shown(ReadingOf(entry[s.room], s.quantity))) else Keep
  }

  /** `showDefaultData` draws "--" for both series of every room. */
  function DefaultUpdate(): Series -> Update {
    (s: Series) => Show(None)
  }

  /** `updateRoomDataForTime` redraws only the bound series, each with the
      fallback chain over its own fetched samples. */
  ghost function HistoryUpdate(entities: map<RoomId, Binding>, history: Hourly, target: int): Series -> Update {
    (s: Series) =>
      if IsBound(entities, s.room, s.quantity) then Show(Shown(ResolveAt(SeriesData(history, s), target)))
      else Keep
  }

  /** A live pass leaves a series blank exactly when it has no usable live value
      and shows the parsed state otherwise. */
  lemma LivePass(d: Screen, rooms: seq<RoomId>, entities: map<RoomId, Binding>,
                 live: map<EntityId, SampleState>, s: Series)
    requires s.room in rooms
    ensures s in ShowRooms(d, rooms, LiveUpdate(entities, live))
    ensures ShowRooms(d, rooms, LiveUpdate(entities, live))[s] == LiveValue(entities, live, s.room, s.quantity)
  {
    ShowRoomsAt(d, rooms, LiveUpdate(entities, live), s);
  }

  /** A history pass shows the chain's number for a bound series of a listed room,
      "--" when the chain yields `null` or `NaN`, and never touches an unbound series. */
  lemma HistoryPass(d: Screen, rooms: seq<RoomId>, entities: map<RoomId, Binding>,
                    history: Hourly, target: int, s: Series)
    ensures s.room in rooms && IsBound(entities, s.room, s.quantity) ==>
      && s in ShowRooms(d, rooms, HistoryUpdate(entities, history, target))
      && ShowRooms(d, rooms, HistoryUpdate(entities, history, target))[s]
           == Shown(ResolveAt(SeriesData(history, s), target))
    ensures !IsBound(entities, s.room, s.quantity) ==>
      && (s in ShowRooms(d, rooms, HistoryUpdate(entities, history, target)) <==> s in d)
      && (s in d ==> ShowRooms(d, rooms, HistoryUpdate(entities, history, target))[s] == d[s])
  {
    ShowRoomsAt(d, rooms, HistoryUpdate(entities, history, target), s);
  }

  /** A cache pass copies a present room's cached readings (`null` and `NaN` drawn
      as "--") and leaves a room absent from the entry as it was. */
  lemma CachePass(d: Screen, rooms: seq<RoomId>, entry: SlotData, s: Series)
    ensures s.room in rooms && s.room in entry ==>
      && s in ShowRooms(d, rooms, CacheUpdate(entry))
      && ShowRooms(d, rooms, CacheUpdate(entry))[s] == Shown(ReadingOf(entry[s.room], s.quantity))
    ensures s.room !in entry ==>
      && (s in ShowRooms(d, rooms, CacheUpdate(entry)) <==> s in d)
      && (s in d ==> ShowRooms(d, rooms, CacheUpdate(entry))[s] == d[s])
  {
    ShowRoomsAt(d, rooms, CacheUpdate(entry), s);
  }

  // ---------------------------------------------------------------------
  // The passes as loops over the configured rooms

  /** The loop of `updateRoomData` over the configured rooms. */
  method LivePassLoop(d: Screen, rooms: seq<RoomId>, entities: map<RoomId, Binding>,
                      live: map<EntityId, SampleState>) returns (e: Screen)
    ensures e == ShowRooms(d, rooms, LiveUpdate(entities, live))
  {
    e := d;
    for j := 0 to |rooms|
      invariant e == ShowRooms(d, rooms[..j], LiveUpdate(entities, live))
    {
      var r := rooms[j];
      assert rooms[..j + 1][..j] == rooms[..j];
      e := e[Series(r, Temperature) := LiveValue(entities, live, r, Temperature)];
      e := e[Series(r, Humidity) := LiveValue(entities, live, r, Humidity)];
    }
    assert rooms[..|rooms|] == rooms;
  }

  /** The loop of `updateDataFromCache` over the configured rooms. */
  method CachePassLoop(d: Screen, rooms: seq<RoomId>, entry: SlotData) returns (e: Screen)
    ensures e == ShowRooms(d, rooms, CacheUpdate(entry))
  {
    e := d;
    for j := 0 to |rooms|
      invariant e == ShowRooms(d, rooms[..j], CacheUpdate(entry))
    {
      var r := rooms[j];
      assert rooms[..j + 1][..j] == rooms[..j];
      if r in entry {
        e := e[Series(r, Temperature) := Shown(entry[r].temperature)];
        e := e[Series(r, Humidity) := Shown(entry[r].humidity)];
      }
    }
    assert rooms[..|rooms|] == rooms;
  }

  /** The loop of `showDefaultData` over the configured rooms. */
  method DefaultPassLoop(d: Screen, rooms: seq<RoomId>) returns (e: Screen)
    ensures e == ShowRooms(d, rooms, DefaultUpdate())
  {
    e := d;
    for j := 0 to |rooms|
      invariant e == ShowRooms(d, rooms[..j], DefaultUpdate())
    {
      var r := rooms[j];
      assert rooms[..j + 1][..j] == rooms[..j];
      e := e[Series(r, Temperature) := None];
      e := e[Series(r, Humidity) := None];
    }
    assert rooms[..|rooms|] == rooms;
  }

  /** The loop of `updateRoomDataForTime` over the configured rooms: the fallback
      chain for each bound series. */
  method HistoryPassLoop(d: Screen, rooms: seq<RoomId>, entities: map<RoomId, Binding>,
                         history: Hourly, target: int) returns (e: Screen)
    ensures e == ShowRooms(d, rooms, HistoryUpdate(entities, history, target))
  {
    e := d;
    for j := 0 to |rooms|
      invariant e == ShowRooms(d, rooms[..j], HistoryUpdate(entities, history, target))
    {
      var r := rooms[j];
      assert rooms[..j + 1][..j] == rooms[..j];
      if IsBound(entities, r, Temperature) {
        var v := ValueForTime(SeriesData(history, Series(r, Temperature)), target);
        e := e[Series(r, Temperature) := Shown(v)];
      }
      if IsBound(entities, r, Humidity) {
        var v := ValueForTime(SeriesData(history, Series(r, Humidity)), target);
        e := e[Series(r, Humidity) := Shown(v)];
      }
    }
    assert rooms[..|rooms|] == rooms;
  }
}
