/**
  Raw history samples and the nearest-sample search shared by
  `getDataFromHourlyData`, the second stage of `getHistoricalValueAtTime`
  and `findNearestValue`: the first non-sentinel sample, in list order,
  whose time is nearest the target (ties keep the earlier sample, because
  the running minimum is only replaced on a strict `<`).
*/
module Samples {
  import opened Wrappers

  /** The `s` field of a history entry, as `parseFloat` and the sentinel tests see it:
      "unknown", "unavailable", `null`, a numeric string, or anything else. */
  datatype SampleState = Unknown | Unavailable | Null | Num(v: real) | Garbage

  /** A history entry: `lu * 1000` as integer milliseconds, and its state. */
  datatype Sample = Sample(time: int, state: SampleState)

  /** A resolved value: `null`, a number, or `NaN` (what `parseFloat` yields on a
      state that is not numeric). */
  datatype Reading = Missing | Known(value: real) | NaN

  predicate IsSentinel(s: SampleState) {
    s.Unknown? || s.Unavailable? || s.Null?
  }

  /** The samples the resolvers accept: any state other than the three sentinels. */
  predicate Usable(x: Sample) {
    !IsSentinel(x.state)
  }

  /** `parseFloat(s)`. */
  function ParseFloat(s: SampleState): (r: Reading)
    ensures r != Missing
    ensures r.Known? <==> s.Num?
    ensures s.Num? ==> r == Known(s.v)
  {
    if s.Num? then Known(s.v) else NaN
  }

  function Dist(a: int, b: int): nat {
    if a >= b then a - b else b - a
  }

  /** Among the first `n` samples, `k` is usable, no usable sample is nearer the
      target, and every usable sample before `k` is strictly farther. */
  predicate NearestAmong(s: seq<Sample>, n: nat, target: int, k: int)
    requires n <= |s|
  {
    && 0 <= k < n
    && Usable(s[k])
    && (forall j :: 0 <= j < n && Usable(s[j]) ==> Dist(s[k].time, target) <= Dist(s[j].time, target))
    && (forall j :: 0 <= j < k && Usable(s[j]) ==> Dist(s[k].time, target) < Dist(s[j].time, target))
  }

  /** `k` is the first usable sample nearest the target. */
  predicate IsFirstNearest(s: seq<Sample>, target: int, k: int) {
    NearestAmong(s, |s|, target, k)
  }

  /** There is at most one first-nearest sample. */
  lemma FirstNearestUnique(s: seq<Sample>, target: int, k1: int, k2: int)
    requires IsFirstNearest(s, target, k1) && IsFirstNearest(s, target, k2)
    ensures k1 == k2
  {
  }

  /** A prefix holding a usable sample has a first-nearest sample. */
  lemma {:induction false} NearestAmongExists(s: seq<Sample>, n: nat, target: int)
    requires n <= |s|
    requires exists j :: 0 <= j < n && Usable(s[j])
    ensures exists k: nat :: NearestAmong(s, n, target, k)
  {
    if forall j :: 0 <= j < n - 1 ==> !Usable(s[j]) {
      assert NearestAmong(s, n, target, n - 1);
    } else {
      NearestAmongExists(s, n - 1, target);
      var k: nat :| NearestAmong(s, n - 1, target, k);
      if Usable(s[n - 1]) && Dist(s[n - 1].time, target) < Dist(s[k].time, target) {
        assert NearestAmong(s, n, target, n - 1);
      } else {
        assert NearestAmong(s, n, target, k);
      }
    }
  }

  /** The first-nearest usable sample, or None when no sample is usable. */
  ghost function NearestIndex(s: seq<Sample>, target: int): (r: Option<nat>)
    ensures r.None? <==> forall j :: 0 <= j < |s| ==> !Usable(s[j])
    ensures r.Some? ==> IsFirstNearest(s, target, r.value)
  {
    if forall j :: 0 <= j < |s| ==> !Usable(s[j]) then
      None
    else
      NearestAmongExists(s, |s|, target);
      var k: nat :| NearestAmong(s, |s|, target, k);
      Some(k)
  }

  /** The running-minimum loop: `minDiff` starts at Infinity (no candidate yet)
      and a usable sample replaces the candidate only when strictly nearer. */
  method FindNearest(s: seq<Sample>, target: int) returns (nearest: Option<nat>)
    ensures nearest == NearestIndex(s, target)
  {
    nearest := None;
    var minDiff := 0;
    for i := 0 to |s|
      invariant nearest.None? <==> forall j :: 0 <= j < i ==> !Usable(s[j])
      invariant nearest.Some? ==> NearestAmong(s, i, target, nearest.value)
      invariant nearest.Some? ==> minDiff == Dist(s[nearest.value].time, target)
    {
      if Usable(s[i]) {
        var diff := Dist(s[i].time, target);
        if nearest.None? || diff < minDiff {
          minDiff := diff;
          nearest := Some(i);
        }
      }
    }
    if nearest.Some? {
      FirstNearestUnique(s, target, nearest.value, NearestIndex(s, target).value);
    }
  }

  /** Nearest-sample resolution with a distance limit: the parsed state of the
      first-nearest usable sample when it lies within `limit` of the target,
      otherwise `null`. */
  ghost function ResolveNearest(s: seq<Sample>, target: int, limit: int): Reading {
    match NearestIndex(s, target)
    case None => Missing
    case Some(k) => if Dist(s[k].time, target) <= limit then ParseFloat(s[k].state) else Missing
  }

  /** The nearest-sample search followed by the distance test
      (`closestData && minDiff <= limit ? parseFloat(closestData.s) : null`). */
  method ResolveNearestWithin(s: seq<Sample>, target: int, limit: int) returns (r: Reading)
    ensures r == ResolveNearest(s, target, limit)
  {
    var nearest := FindNearest(s, target);
    if nearest.Some? && Dist(s[nearest.value].time, target) <= limit {
      r := ParseFloat(s[nearest.value].state);
    } else {
      r := Missing;
    }
  }

  /** The nearest-sample resolver yields `null` exactly when no usable sample lies
      within the limit; otherwise it yields the parsed state of a usable sample
      within the limit that no usable sample is nearer than, and that every
      usable sample listed before it is strictly farther than. */
  lemma ResolveNearestSpec(s: seq<Sample>, target: int, limit: int)
    ensures ResolveNearest(s, target, limit) == Missing
        <==> forall j :: 0 <= j < |s| && Usable(s[j]) ==> Dist(s[j].time, target) > limit
    ensures ResolveNearest(s, target, limit) != Missing ==>
      exists k :: && IsFirstNearest(s, target, k)
                  && Dist(s[k].time, target) <= limit
                  && ResolveNearest(s, target, limit) == ParseFloat(s[k].state)
  {
    match NearestIndex(s, target)
    case None =>
    case Some(k) =>
      if Dist(s[k].time, target) > limit {
        forall j | 0 <= j < |s| && Usable(s[j]) ensures Dist(s[j].time, target) > limit {
        }
      }
  }

  /** A larger limit never loses a value that a smaller limit found. */
  lemma ResolveNearestWiden(s: seq<Sample>, target: int, limit: int, wider: int)
    requires limit <= wider
    requires ResolveNearest(s, target, limit) != Missing
    ensures ResolveNearest(s, target, wider) == ResolveNearest(s, target, limit)
  {
  }
}
