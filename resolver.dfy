/**
  The value resolvers of the card: the value of one series at one instant,
  from the hourly batch of a day (`getDataFromHourlyData`), from a history
  query around the instant (`getHistoricalValueAtTime`, then the
  interpolating fallback `getNearestHistoricalValue`), and the chart's
  nearest-point lookup (`findNearestValue`).

  Each resolver is a method whose contract ties its result to a
  specification function; the lemmas below state what those functions
  promise.  The history query itself is left to the caller: both stages of
  the chain query the same window of thirty minutes either side of the
  aligned instant, so they are handed the same list of samples.
*/
module Resolver {
  import opened Wrappers
  import opened TimeGrid
  import opened Samples
  import opened Lists

  /** Samples farther than this from a slot do not count for it in the hourly batch. */
  const HourlyLimitMs: nat := 10 * MinuteMs
  /** A sample on a five-minute boundary this close to the instant is an exact match. */
  const ExactWindowMs: nat := 150_000
  /** The widest gap either resolver of the chain accepts. */
  const FallbackLimitMs: nat := 30 * MinuteMs

  // ---------------------------------------------------------------------
  // The hourly batch

  /** The value of slot `timeIndex` of day `day` from the samples `data` of one
      series (an empty list stands for the absent key too). */
  ghost function HourlyValue(data: seq<Sample>, day: int, timeIndex: nat): Reading
  {
    ResolveNearest(data, DateTimeForIndex(day, timeIndex), HourlyLimitMs)
  }

  method DataFromHourlyData(data: seq<Sample>, day: int, timeIndex: nat) returns (r: Reading)
    ensures r == Missing <==> forall j :: 0 <= j < |data| && Usable(data[j]) ==>
      Dist(data[j].time, DateTimeForIndex(day, timeIndex)) > HourlyLimitMs
    ensures r != Missing ==> exists k :: && IsFirstNearest(data, DateTimeForIndex(day, timeIndex), k)
                                         && Dist(data[k].time, DateTimeForIndex(day, timeIndex)) <= HourlyLimitMs
                                         && r == ParseFloat(data[k].state)
    ensures r == HourlyValue(data, day, timeIndex)
  {
    if |data| == 0 {
      return Missing;
    }
    var target := DateTimeForIndex(day, timeIndex);
    r := ResolveNearestWithin(data, target, HourlyLimitMs);
    ResolveNearestSpec(data, target, HourlyLimitMs);
  }

  // ---------------------------------------------------------------------
  // The exact-or-nearest resolver

  /** On a five-minute boundary and within two and a half minutes of `t`. */
  predicate IsExactTime(time: int, t: int) {
    MinuteOf(time) % SlotMinutes == 0 && Dist(time, t) <= ExactWindowMs
  }

  /** The test handed to `find` over raw samples. */
  function ExactSampleAt(t: int): Sample -> bool {
    (x: Sample) => Usable(x) && IsExactTime(x.time, t)
  }

  /** `getHistoricalValueAtTime` on the samples `data` of the query window. */
  ghost function AtTimeValue(data: seq<Sample>, targetTime: int): Reading {
    var t := AlignToGrid(targetTime);
    match FindFirst(data, ExactSampleAt(t), 0)
    case Some(k) => ParseFloat(data[k].state)
    case None => ResolveNearest(data, t, FallbackLimitMs)
  }

  method HistoricalValueAtTime(data: seq<Sample>, targetTime: int) returns (r: Reading)
    ensures r == AtTimeValue(data, targetTime)
  {
    var t := AlignToGrid(targetTime);
    var exact := FindFirst(data, ExactSampleAt(t), 0);
    if exact.Some? {
      return ParseFloat(data[exact.value].state);
    }
    r := ResolveNearestWithin(data, t, FallbackLimitMs);
  }

  /** The first usable exact sample wins; without one, the first-nearest usable
      sample within thirty minutes does. */
  lemma AtTimeSpec(data: seq<Sample>, targetTime: int)
    ensures var t := AlignToGrid(targetTime);
      forall k :: 0 <= k < |data| && Usable(data[k]) && IsExactTime(data[k].time, t)
                  && (forall j :: 0 <= j < k && Usable(data[j]) ==> !IsExactTime(data[j].time, t))
                  ==> AtTimeValue(data, targetTime) == ParseFloat(data[k].state)
    ensures var t := AlignToGrid(targetTime);
      (forall j :: 0 <= j < |data| && Usable(data[j]) ==> !IsExactTime(data[j].time, t))
      ==> AtTimeValue(data, targetTime) == ResolveNearest(data, t, FallbackLimitMs)
  {
    var t := AlignToGrid(targetTime);
    var e := FindFirst(data, ExactSampleAt(t), 0);
    forall k | 0 <= k < |data| && Usable(data[k]) && IsExactTime(data[k].time, t)
               && (forall j :: 0 <= j < k && Usable(data[j]) ==> !IsExactTime(data[j].time, t))
      ensures AtTimeValue(data, targetTime) == ParseFloat(data[k].state)
    {
      assert ExactSampleAt(t)(data[k]);
    }
    if e.Some? {
      assert ExactSampleAt(t)(data[e.value]);
    }
  }

  /** The first stage yields `null` exactly when no usable sample lies within
      thirty minutes of the aligned instant. */
  lemma AtTimeMissing(data: seq<Sample>, targetTime: int)
    ensures AtTimeValue(data, targetTime) == Missing <==>
      forall j :: 0 <= j < |data| && Usable(data[j]) ==> Dist(data[j].time, AlignToGrid(targetTime)) > FallbackLimitMs
  {
    var t := AlignToGrid(targetTime);
    ResolveNearestSpec(data, t, FallbackLimitMs);
    match FindFirst(data, ExactSampleAt(t), 0)
    case Some(k) =>
      assert ExactSampleAt(t)(data[k]);
    case None =>
  }

  /** Unlike the interpolating stage, the first stage accepts any state that is
      not a sentinel, so a garbage state on the grid comes out as `NaN`. */
  lemma AtTimeCanBeNaN()
    ensures AtTimeValue([Sample(0, Garbage)], 0) == NaN
  {
    assert ExactSampleAt(AlignToGrid(0))(Sample(0, Garbage));
  }

  // ---------------------------------------------------------------------
  // The interpolating resolver

  /** A parsed history point: milliseconds and value. */
  datatype Point = Point(time: int, value: real)

  /** The point of a numeric sample. */
  function PointOf(x: Sample): Point
    requires x.state.Num?
  {
    Point(x.time, x.state.v)
  }

  /** The samples whose state parses as a number, as points, in list order. */
  function ValidPoints(data: seq<Sample>): (ps: seq<Point>)
    ensures |ps| <= |data|
  {
    if data == [] then []
    else if data[0].state.Num? then [PointOf(data[0])] + ValidPoints(data[1..])
    else ValidPoints(data[1..])
  }

  /** A point is valid exactly when it is the point of a numeric sample. */
  lemma {:induction false} ValidPointsMembers(data: seq<Sample>, p: Point)
    ensures p in ValidPoints(data) <==> exists j :: 0 <= j < |data| && data[j].state.Num? && p == PointOf(data[j])
  {
    if data != [] {
      ValidPointsMembers(data[1..], p);
      if exists j :: 0 <= j < |data| && data[j].state.Num? && p == PointOf(data[j]) {
        var j :| 0 <= j < |data| && data[j].state.Num? && p == PointOf(data[j]);
        if j > 0 {
          assert data[1..][j - 1] == data[j];
        }
      }
      if exists j :: 0 <= j < |data[1..]| && data[1..][j].state.Num? && p == PointOf(data[1..][j]) {
        var j :| 0 <= j < |data[1..]| && data[1..][j].state.Num? && p == PointOf(data[1..][j]);
        assert data[j + 1] == data[1..][j];
      }
    }
  }

  /** The comparator `(a, b) => a.time - b.time`. */
  function TimeLe(a: Point, b: Point): bool {
    a.time <= b.time
  }

  lemma TimeLeTotal()
    ensures TotalPreorder(TimeLe)
  {
  }

  /** The valid points sorted by time. */
  function SortedPoints(data: seq<Sample>): seq<Point> {
    SortBy(ValidPoints(data), TimeLe)
  }

  /** A sorted point is exactly a point of a numeric sample, and the points are
      in time order. */
  lemma SortedPointsSpec(data: seq<Sample>)
    ensures forall p :: p in SortedPoints(data) <==> exists j :: 0 <= j < |data| && data[j].state.Num? && p == PointOf(data[j])
    ensures forall i, j :: 0 <= i < j < |SortedPoints(data)| ==> SortedPoints(data)[i].time <= SortedPoints(data)[j].time
  {
    forall p ensures p in SortedPoints(data) <==> exists j :: 0 <= j < |data| && data[j].state.Num? && p == PointOf(data[j]) {
      SortByMembers(ValidPoints(data), TimeLe, p);
      ValidPointsMembers(data, p);
    }
    TimeLeTotal();
    SortBySorted(ValidPoints(data), TimeLe);
  }

  /** The test handed to `find` over points. */
  function ExactPointAt(t: int): Point -> bool {
    (p: Point) => IsExactTime(p.time, t)
  }

  /** The test that ends the before/after scan. */
  function LaterThan(t: int): Point -> bool {
    (p: Point) => p.time > t
  }

  /** The index the before/after scan stops at: the first point later than `t`,
      or the length. */
  function AfterIndex(ps: seq<Point>, t: int): (m: nat)
    ensures m <= |ps|
    ensures forall j :: 0 <= j < m ==> ps[j].time <= t
    ensures m < |ps| ==> ps[m].time > t
  {
    match FindFirst(ps, LaterThan(t), 0)
    case None => |ps|
    case Some(m) => m
  }

  /** The linear interpolation between `b` and `a` at `t`. */
  function Interpolate(b: Point, a: Point, t: int): real
    requires b.time < a.time
  {
    b.value + (a.value - b.value) * ((t - b.time) as real / (a.time - b.time) as real)
  }

  /** `getNearestHistoricalValue` on the samples `data` of the query window, for a
      bound entity: the first exact point; otherwise interpolation between the
      point before and the point after; otherwise the single neighbour within
      thirty minutes; otherwise `null`. */
  function InterpolatedValue(data: seq<Sample>, targetTime: int): (r: Reading)
    ensures !r.NaN?
  {
    if |data| == 0 then Missing
    else PointsValue(SortedPoints(data), AlignToGrid(targetTime))
  }

  /** The resolution over sorted points `ps` at the aligned instant `t`. */
  function PointsValue(ps: seq<Point>, t: int): (r: Reading)
    ensures !r.NaN?
  {
    if |ps| == 0 then Missing
    else
      match FindFirst(ps, ExactPointAt(t), 0)
      case Some(k) => Known(ps[k].value)
      case None =>
        var m := AfterIndex(ps, t);
        if 0 < m < |ps| then Known(Interpolate(ps[m - 1], ps[m], t))
        else if 0 < m && t - ps[m - 1].time <= FallbackLimitMs then Known(ps[m - 1].value)
        else if m < |ps| && ps[m].time - t <= FallbackLimitMs then Known(ps[m].value)
        else Missing
  }

  ghost predicate TimeSorted(ps: seq<Point>) {
    forall i, j :: 0 <= i < j < |ps| ==> ps[i].time <= ps[j].time
  }

  /** Over sorted points the resolution yields `null` exactly when the points do
      not bracket `t` and none lies within thirty minutes of it. */
  lemma PointsMissing(ps: seq<Point>, t: int)
    requires TimeSorted(ps)
    ensures PointsValue(ps, t) == Missing <==>
      && !((exists p :: p in ps && p.time <= t) && (exists p :: p in ps && p.time > t))
      && (forall p :: p in ps ==> Dist(p.time, t) > FallbackLimitMs)
  {
    if |ps| > 0 {
      match FindFirst(ps, ExactPointAt(t), 0)
      case Some(k) =>
        assert ExactPointAt(t)(ps[k]);
        assert ps[k] in ps;
      case None =>
        var m := AfterIndex(ps, t);
        if 0 < m < |ps| {
          assert ps[m - 1] in ps && ps[m] in ps;
        } else if 0 < m {
          assert ps[m - 1] in ps;
          forall p | p in ps ensures p.time <= ps[m - 1].time <= t {
            var i :| 0 <= i < |ps| && ps[i] == p;
          }
        } else {
          assert ps[0] in ps;
          forall p | p in ps ensures t < ps[0].time <= p.time {
            var i :| 0 <= i < |ps| && ps[i] == p;
          }
        }
    }
  }

  /** Over sorted points the scan stops right after the latest point not later
      than `t`, at the earliest point later than it. */
  lemma AfterIndexSorted(ps: seq<Point>, t: int)
    requires TimeSorted(ps)
    ensures var m := AfterIndex(ps, t);
      && ((exists p :: p in ps && p.time <= t) <==> 0 < m)
      && ((exists p :: p in ps && p.time > t) <==> m < |ps|)
      && (0 < m ==> forall p :: p in ps && p.time <= t ==> p.time <= ps[m - 1].time)
      && (m < |ps| ==> forall p :: p in ps && p.time > t ==> ps[m].time <= p.time)
  {
    var m := AfterIndex(ps, t);
    if 0 < m {
      assert ps[m - 1] in ps;
    }
    if m < |ps| {
      assert ps[m] in ps;
    }
    forall p | p in ps ensures (p.time <= t ==> 0 < m && p.time <= ps[m - 1].time)
                             && (p.time > t ==> m < |ps| && ps[m].time <= p.time) {
      var i :| 0 <= i < |ps| && ps[i] == p;
      if i < m {
        assert p.time <= t;
      } else if m < |ps| {
        assert ps[m].time <= p.time;
      }
    }
  }

  /** Over sorted points with no exact match that bracket `t`, the result is the
      interpolation between the latest point not later than `t` and the earliest
      point later than it. */
  lemma PointsBracket(ps: seq<Point>, t: int)
    requires TimeSorted(ps)
    requires forall p :: p in ps ==> !IsExactTime(p.time, t)
    requires exists p :: p in ps && p.time <= t
    requires exists p :: p in ps && p.time > t
    ensures exists b, a :: && b in ps && a in ps && b.time <= t < a.time
                           && (forall p :: p in ps && p.time <= t ==> p.time <= b.time)
                           && (forall p :: p in ps && p.time > t ==> a.time <= p.time)
                           && PointsValue(ps, t) == Known(Interpolate(b, a, t))
  {
    forall k | 0 <= k < |ps| ensures !ExactPointAt(t)(ps[k]) {
      assert ps[k] in ps;
    }
    AfterIndexSorted(ps, t);
    var m := AfterIndex(ps, t);
    var b, a := ps[m - 1], ps[m];
    assert b in ps && a in ps;
    assert PointsValue(ps, t) == Known(Interpolate(b, a, t));
  }

  /** Over sorted points with an exact match, the result is the value of the
      earliest exact point. */
  lemma PointsExact(ps: seq<Point>, t: int)
    requires TimeSorted(ps)
    requires exists p :: p in ps && IsExactTime(p.time, t)
    ensures exists e :: && e in ps && IsExactTime(e.time, t)
                        && (forall p :: p in ps && IsExactTime(p.time, t) ==> e.time <= p.time)
                        && PointsValue(ps, t) == Known(e.value)
  {
    var q :| q in ps && IsExactTime(q.time, t);
    var iq :| 0 <= iq < |ps| && ps[iq] == q;
    assert ExactPointAt(t)(ps[iq]);
    var k := FindFirst(ps, ExactPointAt(t), 0).value;
    forall p | p in ps && IsExactTime(p.time, t) ensures ps[k].time <= p.time {
      var i :| 0 <= i < |ps| && ps[i] == p;
    }
    assert ps[k] in ps;
  }

  /** The scan for the points either side of `t`: the last point not later than
      `t` before the first later one, and that later one. */
  method BeforeAfter(ps: seq<Point>, t: int) returns (before: Option<Point>, after: Option<Point>)
    ensures var m := AfterIndex(ps, t);
      && (before.Some? <==> 0 < m) && (before.Some? ==> before.value == ps[m - 1])
      && (after.Some? <==> m < |ps|) && (after.Some? ==> after.value == ps[m])
  {
    before, after := None, None;
    var i := 0;
    while i < |ps| && after.None?
      invariant 0 <= i <= |ps|
      invariant after.None? ==> forall j :: 0 <= j < i ==> ps[j].time <= t
      invariant after.Some? ==> 0 < i && ps[i - 1].time > t && after.value == ps[i - 1]
                                && forall j :: 0 <= j < i - 1 ==> ps[j].time <= t
      invariant after.None? ==> before == (if i == 0 then None else Some(ps[i - 1]))
      invariant after.Some? ==> before == (if i == 1 then None else Some(ps[i - 2]))
      decreases |ps| - i
    {
      if ps[i].time <= t {
        before := Some(ps[i]);
      } else {
        after := Some(ps[i]);
      }
      i := i + 1;
    }
    if after.Some? {
      assert LaterThan(t)(ps[i - 1]);
    }
  }

  method NearestHistoricalValue(data: seq<Sample>, targetTime: int) returns (r: Reading)
    ensures r == InterpolatedValue(data, targetTime)
  {
    if |data| == 0 {
      return Missing;
    }
    var ps := SortedPoints(data);
    if |ps| == 0 {
      return Missing;
    }
    var t := AlignToGrid(targetTime);
    var exact := FindFirst(ps, ExactPointAt(t), 0);
    if exact.Some? {
      return Known(ps[exact.value].value);
    }
    var before, after := BeforeAfter(ps, t);
    if before.Some? && after.Some? {
      r := Known(Interpolate(before.value, after.value, t));
    } else if before.Some? && t - before.value.time <= FallbackLimitMs {
      r := Known(before.value.value);
    } else if after.Some? && after.value.time - t <= FallbackLimitMs {
      r := Known(after.value.value);
    } else {
      r := Missing;
    }
  }

  /** The sample at `j` exists and its state parses as a number. */
  predicate NumericAt(data: seq<Sample>, j: int) {
    0 <= j < |data| && data[j].state.Num?
  }

  /** What holds of the sorted points holds of the numeric samples, and back. */
  lemma SortedPointsTransfer(data: seq<Sample>, t: int)
    ensures var ps := SortedPoints(data);
      && ((exists p :: p in ps && p.time <= t) <==> (exists j :: NumericAt(data, j) && data[j].time <= t))
      && ((exists p :: p in ps && p.time > t) <==> (exists j :: NumericAt(data, j) && data[j].time > t))
      && ((exists p :: p in ps && IsExactTime(p.time, t)) <==> (exists j :: NumericAt(data, j) && IsExactTime(data[j].time, t)))
      && ((forall p :: p in ps ==> Dist(p.time, t) > FallbackLimitMs) <==>
          (forall j :: NumericAt(data, j) ==> Dist(data[j].time, t) > FallbackLimitMs))
  {
    var ps := SortedPoints(data);
    SortedPointsSpec(data);
    forall j | NumericAt(data, j) ensures PointOf(data[j]) in ps {
    }
  }

  /** The interpolating stage yields `null` exactly when the numeric samples do not
      bracket the aligned instant and none lies within thirty minutes of it. */
  lemma InterpolatedMissing(data: seq<Sample>, targetTime: int)
    ensures var t := AlignToGrid(targetTime);
      InterpolatedValue(data, targetTime) == Missing <==>
        && !((exists j :: NumericAt(data, j) && data[j].time <= t) && (exists j :: NumericAt(data, j) && data[j].time > t))
        && (forall j :: NumericAt(data, j) ==> Dist(data[j].time, t) > FallbackLimitMs)
  {
    var t := AlignToGrid(targetTime);
    SortedPointsSpec(data);
    SortedPointsTransfer(data, t);
    PointsMissing(SortedPoints(data), t);
  }

  /** The sorted points are in time order. */
  lemma SortedPointsOrdered(data: seq<Sample>)
    ensures TimeSorted(SortedPoints(data))
  {
    TimeLeTotal();
    SortBySorted(ValidPoints(data), TimeLe);
  }

  /** A sorted point is the point of a numeric sample. */
  lemma SortedPointMember(data: seq<Sample>, p: Point)
    ensures p in SortedPoints(data) <==> exists j :: NumericAt(data, j) && p == PointOf(data[j])
  {
    SortByMembers(ValidPoints(data), TimeLe, p);
    ValidPointsMembers(data, p);
  }

  /** The point of a numeric sample is a sorted point. */
  lemma NumericPointIn(data: seq<Sample>, j: int)
    requires NumericAt(data, j)
    ensures PointOf(data[j]) in SortedPoints(data)
  {
    SortedPointMember(data, PointOf(data[j]));
  }

  /** `jb` is a latest numeric sample not later than `t` and `ja` an earliest
      numeric sample later than it. */
  ghost predicate IsBracket(data: seq<Sample>, t: int, jb: int, ja: int) {
    && NumericAt(data, jb) && NumericAt(data, ja) && data[jb].time <= t < data[ja].time
    && (forall j :: NumericAt(data, j) && data[j].time <= t ==> data[j].time <= data[jb].time)
    && (forall j :: NumericAt(data, j) && data[j].time > t ==> data[ja].time <= data[j].time)
  }

  /** The conditions of the data-level bracket, transferred to the sorted points. */
  lemma BracketOnPoints(data: seq<Sample>, t: int)
    requires forall j :: NumericAt(data, j) ==> !IsExactTime(data[j].time, t)
    requires exists j :: NumericAt(data, j) && data[j].time <= t
    requires exists j :: NumericAt(data, j) && data[j].time > t
    ensures TimeSorted(SortedPoints(data))
    ensures forall p :: p in SortedPoints(data) ==> !IsExactTime(p.time, t)
    ensures exists p :: p in SortedPoints(data) && p.time <= t
    ensures exists p :: p in SortedPoints(data) && p.time > t
  {
    var ps := SortedPoints(data);
    SortedPointsOrdered(data);
    forall p | p in ps ensures !IsExactTime(p.time, t) {
      SortedPointMember(data, p);
    }
    var j0 :| NumericAt(data, j0) && data[j0].time <= t;
    var j1 :| NumericAt(data, j1) && data[j1].time > t;
    NumericPointIn(data, j0);
    NumericPointIn(data, j1);
  }

  /** The sample behind the latest sorted point not later than `t` is a latest
      numeric sample not later than `t`. */
  lemma LatestNumeric(data: seq<Sample>, t: int, b: Point) returns (jb: int)
    requires b in SortedPoints(data)
    requires forall p :: p in SortedPoints(data) && p.time <= t ==> p.time <= b.time
    ensures NumericAt(data, jb) && b == PointOf(data[jb])
    ensures forall j :: NumericAt(data, j) && data[j].time <= t ==> data[j].time <= data[jb].time
  {
    SortedPointMember(data, b);
    jb :| NumericAt(data, jb) && b == PointOf(data[jb]);
    forall j | NumericAt(data, j) ensures data[j].time <= t ==> data[j].time <= data[jb].time {
      NumericPointIn(data, j);
    }
  }

  /** The sample behind the earliest sorted point later than `t` is an earliest
      numeric sample later than `t`. */
  lemma EarliestNumeric(data: seq<Sample>, t: int, a: Point) returns (ja: int)
    requires a in SortedPoints(data)
    requires forall p :: p in SortedPoints(data) && p.time > t ==> a.time <= p.time
    ensures NumericAt(data, ja) && a == PointOf(data[ja])
    ensures forall j :: NumericAt(data, j) && data[j].time > t ==> data[ja].time <= data[j].time
  {
    SortedPointMember(data, a);
    ja :| NumericAt(data, ja) && a == PointOf(data[ja]);
    forall j | NumericAt(data, j) ensures data[j].time > t ==> data[ja].time <= data[j].time {
      NumericPointIn(data, j);
    }
  }

  /** Without an exact match, numeric samples on both sides of the aligned instant
      give the interpolation between the latest one not later than it and the
      earliest one later than it. */
  lemma InterpolatedBracket(data: seq<Sample>, targetTime: int)
    requires var t := AlignToGrid(targetTime);
      && (forall j :: NumericAt(data, j) ==> !IsExactTime(data[j].time, t))
      && (exists j :: NumericAt(data, j) && data[j].time <= t)
      && (exists j :: NumericAt(data, j) && data[j].time > t)
    ensures var t := AlignToGrid(targetTime);
      exists jb, ja :: && IsBracket(data, t, jb, ja)
                       && InterpolatedValue(data, targetTime) == Known(Interpolate(PointOf(data[jb]), PointOf(data[ja]), t))
  {
    var t := AlignToGrid(targetTime);
    var ps := SortedPoints(data);
    BracketOnPoints(data, t);
    PointsBracket(ps, t);
    var b, a :| && b in ps && a in ps && b.time <= t < a.time
                && (forall p :: p in ps && p.time <= t ==> p.time <= b.time)
                && (forall p :: p in ps && p.time > t ==> a.time <= p.time)
                && PointsValue(ps, t) == Known(Interpolate(b, a, t));
    var jb := LatestNumeric(data, t, b);
    var ja := EarliestNumeric(data, t, a);
    assert IsBracket(data, t, jb, ja);
  }

  /** With an exact match among the numeric samples, the result is the value of
      an exact numeric sample, and no exact numeric sample is earlier. */
  lemma InterpolatedExact(data: seq<Sample>, targetTime: int)
    requires exists j :: NumericAt(data, j) && IsExactTime(data[j].time, AlignToGrid(targetTime))
    ensures var t := AlignToGrid(targetTime);
      exists k :: && NumericAt(data, k) && IsExactTime(data[k].time, t)
                  && (forall j :: NumericAt(data, j) && IsExactTime(data[j].time, t) ==> data[k].time <= data[j].time)
                  && InterpolatedValue(data, targetTime) == Known(data[k].state.v)
  {
    var t := AlignToGrid(targetTime);
    var ps := SortedPoints(data);
    SortedPointsOrdered(data);
    var j0 :| NumericAt(data, j0) && IsExactTime(data[j0].time, t);
    NumericPointIn(data, j0);
    PointsExact(ps, t);
    var e :| && e in ps && IsExactTime(e.time, t)
             && (forall p :: p in ps && IsExactTime(p.time, t) ==> e.time <= p.time)
             && PointsValue(ps, t) == Known(e.value);
    SortedPointMember(data, e);
    var k :| NumericAt(data, k) && e == PointOf(data[k]);
    forall j | NumericAt(data, j) ensures IsExactTime(data[j].time, t) ==> data[k].time <= data[j].time {
      NumericPointIn(data, j);
    }
  }

  /** An interpolated value lies between the two neighbours' values, and is the
      earlier one's value at the earlier one's time. */
  lemma InterpolateBetween(b: Point, a: Point, t: int)
    requires b.time <= t < a.time
    ensures b.value <= a.value ==> b.value <= Interpolate(b, a, t) <= a.value
    ensures a.value <= b.value ==> a.value <= Interpolate(b, a, t) <= b.value
    ensures t == b.time ==> Interpolate(b, a, t) == b.value
  {
    var ratio := (t - b.time) as real / (a.time - b.time) as real;
    assert 0.0 <= ratio < 1.0 by {
      var num := (t - b.time) as real;
      var den := (a.time - b.time) as real;
      assert ratio * den == num;
    }
    var d := a.value - b.value;
    if d >= 0.0 {
      assert 0.0 <= d * ratio <= d;
    } else {
      assert d <= d * ratio <= 0.0;
    }
  }

  // ---------------------------------------------------------------------
  // The chain used for one series at one instant

  /** The first stage, and the interpolating stage when the first yields `null`. */
  ghost function ResolveAt(data: seq<Sample>, targetTime: int): Reading {
    var r := AtTimeValue(data, targetTime);
    if r == Missing then InterpolatedValue(data, targetTime) else r
  }

  method ValueForTime(data: seq<Sample>, targetTime: int) returns (r: Reading)
    ensures r == ResolveAt(data, targetTime)
  {
    r := HistoricalValueAtTime(data, targetTime);
    if r == Missing {
      r := NearestHistoricalValue(data, targetTime);
    }
  }

  /** The chain yields `null` exactly when no usable sample lies within thirty
      minutes of the aligned instant and the numeric samples do not bracket it:
      interpolation is reached only across a gap wider than thirty minutes. */
  lemma ChainMissing(data: seq<Sample>, targetTime: int)
    ensures var t := AlignToGrid(targetTime);
      ResolveAt(data, targetTime) == Missing <==>
        && (forall j :: 0 <= j < |data| && Usable(data[j]) ==> Dist(data[j].time, t) > FallbackLimitMs)
        && !((exists j :: NumericAt(data, j) && data[j].time <= t) && (exists j :: NumericAt(data, j) && data[j].time > t))
  {
    AtTimeMissing(data, targetTime);
    InterpolatedMissing(data, targetTime);
  }

  /** Two samples ten minutes apart, around the five-minute mark between them. */
  function TwoSamples(): seq<Sample> {
    [Sample(10 * HourMs, Num(20.0)), Sample(10 * HourMs + 10 * MinuteMs, Num(22.0))]
  }

  /** The interpolating stage alone gives the midpoint value at 10:05. */
  lemma InterpolationExample()
    ensures InterpolatedValue(TwoSamples(), 10 * HourMs + 5 * MinuteMs) == Known(21.0)
  {
    var t := 10 * HourMs + 5 * MinuteMs;
    assert AlignToGrid(t) == t;
    var ps := SortedPoints(TwoSamples());
    assert ps == [Point(10 * HourMs, 20.0), Point(10 * HourMs + 10 * MinuteMs, 22.0)];
    assert !ExactPointAt(t)(ps[0]) && !ExactPointAt(t)(ps[1]);
    assert AfterIndex(ps, t) == 1 by {
      assert LaterThan(t)(ps[1]);
    }
  }

  /** The chain never gets there: the first stage takes the nearest sample within
      thirty minutes, and of the two equally near samples the earlier listed. */
  lemma ChainExample()
    ensures ResolveAt(TwoSamples(), 10 * HourMs + 5 * MinuteMs) == Known(20.0)
  {
    var data := TwoSamples();
    var t := 10 * HourMs + 5 * MinuteMs;
    assert AlignToGrid(t) == t;
    assert !ExactSampleAt(t)(data[0]) && !ExactSampleAt(t)(data[1]);
    assert NearestIndex(data, t) == Some(0) by {
      assert IsFirstNearest(data, t, 0);
      FirstNearestUnique(data, t, 0, NearestIndex(data, t).value);
    }
  }

  /** One sample at 10:00. */
  function OneSample(): seq<Sample> {
    [Sample(10 * HourMs, Num(20.0))]
  }

  /** Twenty minutes after the single sample the chain yields it. */
  lemma OneSidedNear()
    ensures ResolveAt(OneSample(), 10 * HourMs + 20 * MinuteMs) == Known(20.0)
  {
    assert AlignToGrid(10 * HourMs + 20 * MinuteMs) == 10 * HourMs + 20 * MinuteMs;
  }

  /** At 10:31 the instant is first aligned down to 10:30, exactly thirty minutes
      from the single sample, so the chain still yields it. */
  lemma OneSidedAligned()
    ensures ResolveAt(OneSample(), 10 * HourMs + 31 * MinuteMs) == Known(20.0)
  {
    assert AlignToGrid(10 * HourMs + 31 * MinuteMs) == 10 * HourMs + 30 * MinuteMs;
  }

  /** At 10:35 the single sample is too far on one side and the chain yields `null`. */
  lemma OneSidedFar()
    ensures ResolveAt(OneSample(), 10 * HourMs + 35 * MinuteMs) == Missing
  {
    assert AlignToGrid(10 * HourMs + 35 * MinuteMs) == 10 * HourMs + 35 * MinuteMs;
    ChainMissing(OneSample(), 10 * HourMs + 35 * MinuteMs);
  }

  /** Samples that are all unavailable resolve to `null`. */
  lemma UnavailableExample(n: nat, times: seq<int>)
    ensures ResolveAt(seq(|times|, i requires 0 <= i < |times| => Sample(times[i], Unavailable)), n) == Missing
  {
    ChainMissing(seq(|times|, i requires 0 <= i < |times| => Sample(times[i], Unavailable)), n);
  }

  // ---------------------------------------------------------------------
  // The chart's nearest-point lookup

  /** A chart data entry: a `[time, value]` pair with a numeric value, or
      anything else. */
  datatype ChartEntry = Pair(time: int, value: real) | Malformed

  /** The chart entries as samples; a malformed entry is a sample the search skips. */
  function ChartSamples(points: seq<ChartEntry>): (s: seq<Sample>)
    ensures |s| == |points|
    ensures forall j :: 0 <= j < |points| ==> (Usable(s[j]) <==> points[j].Pair?)
    ensures forall j :: 0 <= j < |points| && points[j].Pair? ==> s[j] == Sample(points[j].time, Num(points[j].value))
  {
    seq(|points|, j requires 0 <= j < |points| =>
      match points[j]
      case Pair(time, value) => Sample(time, Num(value))
      case Malformed => Sample(0, Null))
  }

  /** The value of the first well-formed entry nearest `targetTime` when it lies
      within `maxTimeDiff`, otherwise `null`. */
  method FindNearestValue(points: seq<ChartEntry>, targetTime: int, maxTimeDiff: int) returns (r: Option<real>)
    ensures r.None? <==> forall j :: 0 <= j < |points| && points[j].Pair? ==> Dist(points[j].time, targetTime) > maxTimeDiff
    ensures r.Some? ==> exists k :: && IsFirstNearest(ChartSamples(points), targetTime, k)
                                   && points[k].Pair? && Dist(points[k].time, targetTime) <= maxTimeDiff
                                   && r.value == points[k].value
  {
    if |points| == 0 {
      return None;
    }
    var s := ChartSamples(points);
    var nearest := FindNearest(s, targetTime);
    if nearest.Some? && Dist(s[nearest.value].time, targetTime) <= maxTimeDiff {
      r := Some(points[nearest.value].value);
    } else {
      r := None;
    }
  }
}
