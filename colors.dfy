/**
  The custom colour scales of the card (`temp_colors`, `humidity_colors`):
  `parseColorRanges` turns the configured list or object into ranges sorted
  by their lower bound, and `getColorForValue` picks the colour of the first
  range that holds a value.  Bounds are JavaScript numbers, so they can be
  infinite or `NaN`; the numeric parsing of a key (`Number`, `parseFloat`) is
  a parameter.
*/
module Colors {
  import opened Wrappers
  import opened Lists

  /** A JavaScript number as a range bound. */
  datatype Num = NaN | NegInf | Fin(x: real) | PosInf

  /** `v >= a`: false against `NaN`. */
  predicate AtLeast(v: real, a: Num) {
    match a
    case NaN => false
    case NegInf => true
    case Fin(x) => v >= x
    case PosInf => false
  }

  /** `v <= b`: false against `NaN`. */
  predicate AtMost(v: real, b: Num) {
    match b
    case NaN => false
    case NegInf => false
    case Fin(x) => v <= x
    case PosInf => true
  }

  /** `v + 0.1`, taken as exact. */
  function PlusTenth(v: Num): Num {
    if v.Fin? then Fin(v.x + 0.1) else v
  }

  datatype ColorRange = ColorRange(min: Num, max: Num, color: string)

  /** `value >= range.min && value <= range.max`. */
  predicate Holds(r: ColorRange, v: real) {
    AtLeast(v, r.min) && AtMost(v, r.max)
  }

  // ---------------------------------------------------------------------
  // Sorting by the lower bound

  /** The sign of `a - b`, which `sort` reads as the comparator's verdict; a
      `NaN` difference (a `NaN` bound, or two equal infinities) counts as 0. */
  function Compare(a: Num, b: Num): (c: int)
    ensures -1 <= c <= 1
    ensures a == b ==> c == 0
  {
    match (a, b)
    case (NaN, _) => 0
    case (_, NaN) => 0
    case (NegInf, NegInf) => 0
    case (NegInf, _) => -1
    case (PosInf, PosInf) => 0
    case (PosInf, _) => 1
    case (Fin(x), NegInf) => 1
    case (Fin(x), PosInf) => -1
    case (Fin(x), Fin(y)) => if x < y then -1 else if x == y then 0 else 1
  }

  /** The order of the extended reals on bounds that are numbers. */
  predicate NumLe(a: Num, b: Num) {
    a == NegInf || b == PosInf || (a.Fin? && b.Fin? && a.x <= b.x)
  }

  predicate NoNaNMin(s: seq<ColorRange>) {
    forall i :: 0 <= i < |s| ==> s[i].min != NaN
  }

  predicate SortedByMin(s: seq<ColorRange>) {
    forall i, j :: 0 <= i < j < |s| ==> NumLe(s[i].min, s[j].min)
  }

  /** Away from `NaN` the comparator is the order of the extended reals. */
  lemma CompareIsOrder(a: Num, b: Num)
    requires a != NaN && b != NaN
    ensures Compare(a, b) <= 0 <==> NumLe(a, b)
    ensures Compare(a, b) > 0 ==> NumLe(b, a)
  {
  }

  /** `sort((a, b) => a.min - b.min)` keeps `a` before `b` when the difference
      is not positive. */
  predicate MinLe(a: ColorRange, b: ColorRange) {
    Compare(a.min, b.min) <= 0
  }

  /** The stable sort by the comparator. */
  function SortByMin(s: seq<ColorRange>): seq<ColorRange> {
    SortBy(s, MinLe)
  }

  lemma {:induction false} InsertSorted(x: ColorRange, t: seq<ColorRange>)
    requires x.min != NaN && NoNaNMin(t) && SortedByMin(t)
    ensures SortedByMin(InsertBy(x, t, MinLe)) && NoNaNMin(InsertBy(x, t, MinLe))
    decreases |t|
  {
    var r := InsertBy(x, t, MinLe);
    forall k | 0 <= k < |r| ensures r[k].min != NaN {
      assert r[k] in multiset(r);
      if r[k] != x {
        assert r[k] in multiset(t);
      }
    }
    if |t| > 0 {
      CompareIsOrder(x.min, t[0].min);
      if !MinLe(x, t[0]) {
        var rest := InsertBy(x, t[1..], MinLe);
        InsertSorted(x, t[1..]);
        assert t == [t[0]] + t[1..];
        forall k | 0 <= k < |rest| ensures NumLe(t[0].min, rest[k].min) {
          assert rest[k] in multiset(rest);
          if rest[k] != x {
            assert rest[k] in multiset(t[1..]);
          }
        }
      }
    }
  }

  /** When no lower bound is `NaN`, the comparator is consistent and the ranges
      come out in ascending order of their lower bound. */
  lemma {:induction false} SortSorted(s: seq<ColorRange>)
    requires NoNaNMin(s)
    ensures SortedByMin(SortByMin(s))
    decreases |s|
  {
    if |s| > 0 {
      SortSorted(s[1..]);
      var t := SortByMin(s[1..]);
      forall k | 0 <= k < |t| ensures t[k].min != NaN {
        assert t[k] in multiset(s[1..]);
      }
      InsertSorted(s[0], t);
    }
  }

  /** The ranges of `s` whose lower bound is `k`, in order. */
  function WithMin(s: seq<ColorRange>, k: Num): seq<ColorRange>
    decreases |s|
  {
    if |s| == 0 then [] else (if s[0].min == k then [s[0]] else []) + WithMin(s[1..], k)
  }

  lemma {:induction false} InsertStable(x: ColorRange, t: seq<ColorRange>, k: Num)
    ensures WithMin(InsertBy(x, t, MinLe), k) == (if x.min == k then [x] else []) + WithMin(t, k)
    decreases |t|
  {
    if |t| == 0 || MinLe(x, t[0]) {
      assert ([x] + t)[1..] == t;
    } else {
      InsertStable(x, t[1..], k);
      assert ([t[0]] + InsertBy(x, t[1..], MinLe))[1..] == InsertBy(x, t[1..], MinLe);
    }
  }

  /** The sort is stable: ranges with the same lower bound keep their configured
      order (so the first of them still wins in `ColorFor`). */
  lemma {:induction false} SortStable(s: seq<ColorRange>, k: Num)
    ensures WithMin(SortByMin(s), k) == WithMin(s, k)
    decreases |s|
  {
    if |s| > 0 {
      SortStable(s[1..], k);
      InsertStable(s[0], SortByMin(s[1..]), k);
    }
  }

  // ---------------------------------------------------------------------
  // Parsing the configuration

  /** The shapes `parseColorRanges` tells apart: a falsy value, an array of
      `{min, max, color}`, another object (its `Object.entries`, in that order),
      and any other value. */
  datatype ColorConfig =
    | Falsy
    | RangeList(items: seq<ColorRange>)
    | KeyedColors(entries: seq<(string, string)>)
    | Scalar

  /** The index of the first `c` in `s`, or `|s|`. */
  function IndexOf(s: string, c: char): (i: nat)
    ensures i <= |s|
    ensures i < |s| ==> s[i] == c
    ensures forall j :: 0 <= j < i ==> s[j] != c
    decreases |s|
  {
    if |s| == 0 then 0 else if s[0] == c then 0 else IndexOf(s[1..], c) + 1
  }

  /** The first two pieces of `key.split('-')`, for a key that has a `-`. */
  function SplitPair(key: string): (p: (string, string))
    requires '-' in key
    ensures '-' !in p.0 && '-' !in p.1
    ensures |p.0| + 1 + |p.1| <= |key|
    ensures key[..|p.0| + 1 + |p.1|] == p.0 + "-" + p.1
    ensures |p.0| + 1 + |p.1| < |key| ==> key[|p.0| + 1 + |p.1|] == '-'
  {
    var i := IndexOf(key, '-');
    var rest := key[i + 1..];
    var j := IndexOf(rest, '-');
    assert key[..i + 1 + j] == key[..i] + "-" + rest[..j];
    (key[..i], rest[..j])
  }

  /** The range of one entry of an object configuration, as written: a key
      with a `-` is a `min-max` pair, then `<x` is below `x`, `>x` above `x`,
      and any other key `x` is `[x, x + 0.1]`. */
  function KeyRangeAsWritten(key: string, color: string,
                             number: string -> Num, parseFloat: string -> Num): (r: ColorRange)
    ensures r.color == color
    ensures '-' in key ==> r == ColorRange(number(SplitPair(key).0), number(SplitPair(key).1), color)
  {
    if '-' in key then
      var p := SplitPair(key);
      ColorRange(number(p.0), number(p.1), color)
    else if |key| > 0 && key[0] == '<' then ColorRange(NegInf, parseFloat(key[1..]), color)
    else if |key| > 0 && key[0] == '>' then ColorRange(parseFloat(key[1..]), PosInf, color)
    else
      var v := parseFloat(key);
      ColorRange(v, PlusTenth(v), color)
  }

  /** The range of one entry, with the `<` and `>` prefixes tested before the
      `-` of a pair, so that a negative bound such as `<-5` keeps its meaning. */
  function KeyRange(key: string, color: string,
                    number: string -> Num, parseFloat: string -> Num): (r: ColorRange)
    ensures r.color == color
    ensures |key| > 0 && key[0] == '<' ==> r.min == NegInf && r.max == parseFloat(key[1..])
    ensures |key| > 0 && key[0] == '>' ==> r.min == parseFloat(key[1..]) && r.max == PosInf
    ensures !(|key| > 0 && key[0] in "<>") ==> r == KeyRangeAsWritten(key, color, number, parseFloat)
  {
    if |key| > 0 && key[0] == '<' then ColorRange(NegInf, parseFloat(key[1..]), color)
    else if |key| > 0 && key[0] == '>' then ColorRange(parseFloat(key[1..]), PosInf, color)
    else KeyRangeAsWritten(key, color, number, parseFloat)
  }

  /** The key `<-5` is read as the pair `"<"`-`"5"`: its range runs from
      `Number("<")` to 5, and since `Number("<")` is `NaN` no value falls in it. */
  lemma BelowNegativeAsWritten(color: string, number: string -> Num, parseFloat: string -> Num, v: real)
    requires number("<") == NaN
    ensures KeyRangeAsWritten("<-5", color, number, parseFloat) == ColorRange(NaN, number("5"), color)
    ensures !Holds(KeyRangeAsWritten("<-5", color, number, parseFloat), v)
  {
    var key: string := "<-5";
    var p := SplitPair(key);
    var n := |p.0| + 1 + |p.1|;
    var w := p.0 + "-" + p.1;
    assert key[..n] == w;
    assert |p.0| == 1;
    assert p.0 == "<" by {
      assert p.0[0] == w[0] == key[..n][0] == key[0];
    }
    assert |p.1| == 1;
    assert p.1 == "5" by {
      assert p.1[0] == w[2] == key[..n][2] == key[2];
    }
  }

  /** With the prefixes tested first, `<-5` means every value up to -5. */
  lemma BelowNegative(color: string, number: string -> Num, parseFloat: string -> Num, v: real)
    requires parseFloat("-5") == Fin(-5.0)
    ensures KeyRange("<-5", color, number, parseFloat) == ColorRange(NegInf, Fin(-5.0), color)
    ensures Holds(KeyRange("<-5", color, number, parseFloat), v) <==> v <= -5.0
  {
  }

  /** The ranges built from the object's entries, in entry order, each read
      as the code reads it. */
  function EntryRanges(entries: seq<(string, string)>, number: string -> Num,
                       parseFloat: string -> Num): seq<ColorRange>
  {
    seq(|entries|, i requires 0 <= i < |entries| => KeyRangeAsWritten(entries[i].0, entries[i].1, number, parseFloat))
  }

  /** `parseColorRanges`: `null` for a falsy or a non-object value, otherwise the
      configured ranges sorted by their lower bound. */
  function ColorRanges(config: ColorConfig, number: string -> Num,
                       parseFloat: string -> Num): Option<seq<ColorRange>>
  {
    match config
    case Falsy => None
    case RangeList(items) => Some(SortByMin(items))
    case KeyedColors(entries) => Some(SortByMin(EntryRanges(entries, number, parseFloat)))
    case Scalar => None
  }

  /** The loop over `Object.entries` that pushes one range per entry. */
  method BuildRanges(entries: seq<(string, string)>, number: string -> Num,
                     parseFloat: string -> Num) returns (ranges: seq<ColorRange>)
    ensures |ranges| == |entries|
    ensures forall i :: 0 <= i < |entries| ==>
      ranges[i] == KeyRangeAsWritten(entries[i].0, entries[i].1, number, parseFloat)
  {
    ranges := [];
    for i := 0 to |entries|
      invariant |ranges| == i
      invariant forall j :: 0 <= j < i ==> ranges[j] == KeyRangeAsWritten(entries[j].0, entries[j].1, number, parseFloat)
    {
      var (key, color) := entries[i];
      ranges := ranges + [KeyRangeAsWritten(key, color, number, parseFloat)];
    }
  }

  /** `parseColorRanges`. */
  method ParseColorRanges(config: ColorConfig, number: string -> Num,
                          parseFloat: string -> Num) returns (r: Option<seq<ColorRange>>)
    ensures r == ColorRanges(config, number, parseFloat)
  {
    match config {
      case Falsy => r := None;
      case RangeList(items) => r := Some(SortByMin(items));
      case KeyedColors(entries) =>
        var ranges := BuildRanges(entries, number, parseFloat);
        assert ranges == EntryRanges(entries, number, parseFloat);
        r := Some(SortByMin(ranges));
      case Scalar => r := None;
    }
  }

  /** The parsed configuration holds exactly the configured ranges; with no
      `NaN` lower bound they are in ascending order of it, and ranges with the
      same lower bound stay in configured order. */
  lemma ColorRangesSortedPermutation(config: ColorConfig, number: string -> Num,
                                     parseFloat: string -> Num, k: Num)
    requires config.RangeList?
    ensures ColorRanges(config, number, parseFloat).Some?
    ensures multiset(ColorRanges(config, number, parseFloat).value) == multiset(config.items)
    ensures NoNaNMin(config.items) ==> SortedByMin(ColorRanges(config, number, parseFloat).value)
    ensures WithMin(ColorRanges(config, number, parseFloat).value, k) == WithMin(config.items, k)
  {
    SortStable(config.items, k);
    if NoNaNMin(config.items) {
      SortSorted(config.items);
    }
  }

  /** A configuration whose one key is `<-5` therefore colours no value. */
  lemma BelowNegativeColorsNothing(color: string, number: string -> Num, parseFloat: string -> Num, v: real)
    requires number("<") == NaN
    ensures ColorFor(v, ColorRanges(KeyedColors([("<-5", color)]), number, parseFloat)).None?
  {
    var rs := EntryRanges([("<-5", color)], number, parseFloat);
    BelowNegativeAsWritten(color, number, parseFloat, v);
    assert rs == [ColorRange(NaN, number("5"), color)];
    assert SortByMin(rs) == rs;
  }

  // ---------------------------------------------------------------------
  // Looking a value up

  /** Whether range `r` holds `v`, as a test for `FindFirst`. */
  function HoldsValue(v: real): ColorRange -> bool {
    (r: ColorRange) => Holds(r, v)
  }

  /** `getColorForValue`: the colour of the first range that holds `v`; `null`
      without ranges or when none holds it. */
  function ColorFor(v: real, ranges: Option<seq<ColorRange>>): (c: Option<string>)
    ensures c.Some? <==> ranges.Some? && exists i :: 0 <= i < |ranges.value| && Holds(ranges.value[i], v)
    ensures c.Some? ==> exists i :: && 0 <= i < |ranges.value| && Holds(ranges.value[i], v)
                                    && c.value == ranges.value[i].color
                                    && forall j :: 0 <= j < i ==> !Holds(ranges.value[j], v)
  {
    if ranges.None? then None
    else
      match FindFirst(ranges.value, HoldsValue(v), 0)
      case Some(i) => Some(ranges.value[i].color)
      case None => None
  }
}
