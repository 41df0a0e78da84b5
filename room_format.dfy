/**
  The per-room display settings `setConfig` reads for each configured room:
  the value font size and decimal places (`room-data_font_size_round`, or
  `room-data_font_size` alone) and the label font size
  (`room-label_font_size`).  What `parseInt` makes of a setting is given as
  a value; the splitting of a text setting at spaces and commas is not part
  of this model.
*/
module RoomFormat {
  import opened Wrappers
  import opened Rooms

  /** The result of `parseInt`: an integer, or `NaN`. */
  datatype IntParse = NotANumber | Int(n: int)

  /** `parseInt(x) || d`: `NaN` and 0 are both falsy and give `d`. */
  function IntOr(p: IntParse, d: int): (r: int)
    ensures p.Int? && p.n != 0 ==> r == p.n
    ensures p == NotANumber || p == Int(0) ==> r == d
  {
    if p.Int? && p.n != 0 then p.n else d
  }

  /** `room-data_font_size_round`, by its JavaScript type: a string (its
      non-empty pieces, each through `parseInt`), a number, an array (each item
      through `parseInt`), or anything else. */
  datatype RoundSetting =
    | RoundText(parts: seq<IntParse>)
    | RoundNumber(x: real)
    | RoundList(items: seq<IntParse>)
    | RoundOther

  /** The settings of one room; `None` is a key that is not there. */
  datatype RoomConfig = RoomConfig(
    id: RoomId,
    round: Option<RoundSetting>,
    dataFontSize: Option<IntParse>,
    labelFontSize: Option<IntParse>)

  /** What the card keeps for a room in `roomDataFontSizes`,
      `roomDecimalPlaces` and `roomLabelFontSizes`. */
  datatype Format = Format(dataFontSize: real, decimalPlaces: int, labelFontSize: int)

  const DefaultFontSize: int := 40
  const DefaultDecimals: int := 1

  /** `Math.max(0, Math.min(3, d))`. */
  function ClampDecimals(d: int): (r: int)
    ensures 0 <= r <= 3
    ensures 0 <= d <= 3 ==> r == d
    ensures d < 0 ==> r == 0
    ensures d > 3 ==> r == 3
  {
    if d < 0 then 0 else if d > 3 then 3 else d
  }

  /** `parseInt(parts[1]) || 1`, as written: "0" gives one decimal place. */
  function DecimalsAsWritten(p: IntParse): int {
    IntOr(p, DefaultDecimals)
  }

  /** The decimal places a parsed setting asks for: only `NaN` falls back to 1. */
  function Decimals(p: IntParse): (r: int)
    ensures p.Int? ==> r == p.n
    ensures p == NotANumber ==> r == DefaultDecimals
  {
    if p.Int? then p.n else DefaultDecimals
  }

  /** The font size and unclamped decimal places of a string or array setting,
      with `decimals` reading its second piece. */
  function PiecesFormat(parts: seq<IntParse>, decimals: IntParse -> int): (int, int) {
    if |parts| == 0 then (DefaultFontSize, DefaultDecimals)
    else (IntOr(parts[0], DefaultFontSize), if |parts| >= 2 then decimals(parts[1]) else DefaultDecimals)
  }

  /** The value font size and decimal places of one room, with `decimals`
      reading the second piece of a string or array setting. */
  function ValueFormat(c: RoomConfig, decimals: IntParse -> int): (real, int) {
    match c.round
    case Some(setting) =>
      var (size, places) :=
        match setting
        case RoundText(parts) => var p := PiecesFormat(parts, decimals); (p.0 as real, p.1)
        case RoundNumber(x) => (x, DefaultDecimals)
        case RoundList(items) => var p := PiecesFormat(items, decimals); (p.0 as real, p.1)
        case RoundOther => (DefaultFontSize as real, DefaultDecimals);
      (size, ClampDecimals(places))
    case None =>
      match c.dataFontSize
      case Some(p) => (IntOr(p, DefaultFontSize) as real, DefaultDecimals)
      case None => (DefaultFontSize as real, DefaultDecimals)
  }

  function LabelSize(c: RoomConfig): int {
    match c.labelFontSize
    case Some(p) => IntOr(p, DefaultFontSize)
    case None => DefaultFontSize
  }

  /** One room's settings, as the code reads them: the decimal places are
      clamped to 0..3, and every missing setting takes its default. */
  function FormatAsWritten(c: RoomConfig): (f: Format)
    ensures 0 <= f.decimalPlaces <= 3
    ensures c.round.None? ==> f.decimalPlaces == DefaultDecimals
    ensures c.labelFontSize.None? ==> f.labelFontSize == DefaultFontSize
    ensures c.round.None? && c.dataFontSize.None? ==> f.dataFontSize == DefaultFontSize as real
  {
    var v := ValueFormat(c, DecimalsAsWritten);
    Format(v.0, v.1, LabelSize(c))
  }

  /** One room's settings, with a requested 0 kept as 0 decimal places; the
      font sizes are those the code reads. */
  function FormatOf(c: RoomConfig): (f: Format)
    ensures 0 <= f.decimalPlaces <= 3
    ensures c.round.None? ==> f.decimalPlaces == DefaultDecimals
    ensures f.dataFontSize == FormatAsWritten(c).dataFontSize
    ensures f.labelFontSize == FormatAsWritten(c).labelFontSize
  {
    var v := ValueFormat(c, Decimals);
    Format(v.0, v.1, LabelSize(c))
  }

  /** A string setting "10, 0" asks for no decimal places, but `parseInt("0") || 1`
      turns it into one. */
  lemma ZeroDecimalsAsWritten(id: RoomId)
    ensures FormatAsWritten(RoomConfig(id, Some(RoundText([Int(10), Int(0)])), None, None)).decimalPlaces == 1
  {
  }

  /** With only `NaN` falling back, every requested number of places from 0 to 3
      is kept, and one outside is clamped. */
  lemma RequestedDecimals(id: RoomId, size: int, places: int)
    ensures FormatOf(RoomConfig(id, Some(RoundText([Int(size), Int(places)])), None, None)).decimalPlaces
            == ClampDecimals(places)
    ensures FormatOf(RoomConfig(id, Some(RoundText([Int(10), Int(0)])), None, None)).decimalPlaces == 0
  {
  }

  /** The two readings differ only on a requested 0. */
  lemma DecimalsAgree(p: IntParse)
    ensures p != Int(0) ==> DecimalsAsWritten(p) == Decimals(p)
    ensures DecimalsAsWritten(Int(0)) == 1 && Decimals(Int(0)) == 0
  {
  }

  /** Whether a later room of `rooms` has the same id as the one at `i`. */
  predicate Overridden(rooms: seq<RoomConfig>, i: nat)
    requires i < |rooms|
  {
    exists j :: i < j < |rooms| && rooms[j].id == rooms[i].id
  }

  /** The `config.rooms.forEach` of `setConfig`: each room's settings, as the
      code reads them, stored under its id, a later room with the same id
      overwriting an earlier one. */
  method RoomFormats(rooms: seq<RoomConfig>) returns (t: map<RoomId, Format>)
    ensures forall r :: r in t <==> exists i :: 0 <= i < |rooms| && rooms[i].id == r
    ensures forall i :: 0 <= i < |rooms| && !Overridden(rooms, i) ==>
      rooms[i].id in t && t[rooms[i].id] == FormatAsWritten(rooms[i])
  {
    t := map[];
    for k := 0 to |rooms|
      invariant forall r :: r in t <==> exists i :: 0 <= i < k && rooms[i].id == r
      invariant forall i :: 0 <= i < k && !(exists j :: i < j < k && rooms[j].id == rooms[i].id) ==>
        rooms[i].id in t && t[rooms[i].id] == FormatAsWritten(rooms[i])
    {
      t := t[rooms[k].id := FormatAsWritten(rooms[k])];
    }
  }
}
