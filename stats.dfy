/**
  `calculateStats`: the highest and lowest temperature and humidity of the
  chart's history, each with the time it was recorded.  The running extremes
  start at -Infinity and Infinity with no time and are replaced only by a
  strictly greater (or smaller) value, so an empty series keeps them and a
  tie keeps the first point.  The chart's points are finite by construction,
  so values are reals.
*/
module Stats {
  import opened Wrappers

  /** A chart point `[time, value]`. */
  datatype Point = Point(time: int, value: real)

  /** `k` is the first point of `points` with the greatest value. */
  predicate FirstMax(points: seq<Point>, k: int) {
    && 0 <= k < |points|
    && (forall j :: 0 <= j < |points| ==> points[j].value <= points[k].value)
    && (forall j :: 0 <= j < k ==> points[j].value < points[k].value)
  }

  /** `k` is the first point of `points` with the smallest value. */
  predicate FirstMin(points: seq<Point>, k: int) {
    && 0 <= k < |points|
    && (forall j :: 0 <= j < |points| ==> points[j].value >= points[k].value)
    && (forall j :: 0 <= j < k ==> points[j].value > points[k].value)
  }

  /** The extremes of both series; `None` is the initial `{value: ∓Infinity, time: null}`. */
  datatype Stats = Stats(
    tempMax: Option<Point>,
    tempMin: Option<Point>,
    humidityMax: Option<Point>,
    humidityMin: Option<Point>)

  /** The first greatest point, when there is one, is the only one. */
  lemma FirstMaxUnique(points: seq<Point>, k1: int, k2: int)
    requires FirstMax(points, k1) && FirstMax(points, k2)
    ensures k1 == k2
  {
    assert points[k1].value == points[k2].value;
  }

  /** The first smallest point, when there is one, is the only one. */
  lemma FirstMinUnique(points: seq<Point>, k1: int, k2: int)
    requires FirstMin(points, k1) && FirstMin(points, k2)
    ensures k1 == k2
  {
    assert points[k1].value == points[k2].value;
  }

  /** The `forEach` over one series: both running extremes at once. */
  method SeriesExtremes(points: seq<Point>) returns (max: Option<Point>, min: Option<Point>)
    ensures max.None? <==> |points| == 0
    ensures min.None? <==> |points| == 0
    ensures max.Some? ==> exists k :: FirstMax(points, k) && max.value == points[k]
    ensures min.Some? ==> exists k :: FirstMin(points, k) && min.value == points[k]
  {
    max, min := None, None;
    ghost var kMax, kMin := 0, 0;
    for i := 0 to |points|
      invariant max.None? <==> i == 0
      invariant min.None? <==> i == 0
      invariant max.Some? ==> FirstMax(points[..i], kMax) && max.value == points[kMax]
      invariant min.Some? ==> FirstMin(points[..i], kMin) && min.value == points[kMin]
    {
      var p := points[i];
      if max.None? || p.value > max.value.value {
        max, kMax := Some(p), i;
      }
      if min.None? || p.value < min.value.value {
        min, kMin := Some(p), i;
      }
    }
    assert points[..|points|] == points;
  }

  /** `calculateStats`: a series that is absent is taken as empty. */
  method CalculateStats(temperature: seq<Point>, humidity: seq<Point>) returns (s: Stats)
    ensures s.tempMax.None? <==> |temperature| == 0
    ensures s.humidityMax.None? <==> |humidity| == 0
    ensures s.tempMin.None? <==> |temperature| == 0
    ensures s.humidityMin.None? <==> |humidity| == 0
    ensures s.tempMax.Some? ==> exists k :: FirstMax(temperature, k) && s.tempMax.value == temperature[k]
    ensures s.tempMin.Some? ==> exists k :: FirstMin(temperature, k) && s.tempMin.value == temperature[k]
    ensures s.humidityMax.Some? ==> exists k :: FirstMax(humidity, k) && s.humidityMax.value == humidity[k]
    ensures s.humidityMin.Some? ==> exists k :: FirstMin(humidity, k) && s.humidityMin.value == humidity[k]
  {
    var tMax, tMin := SeriesExtremes(temperature);
    var hMax, hMin := SeriesExtremes(humidity);
    s := Stats(tMax, tMin, hMax, hMin);
  }
}
