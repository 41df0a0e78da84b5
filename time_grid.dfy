/**
  The fixed 5-minute grid of the card: a day is cut into 288 slots, slot i
  starting at hour i / 12, minute (i % 12) * 5.

  An instant is an integer number of milliseconds of local wall-clock time.
  Every day lasts exactly 86,400,000 ms (no time-zone offset, no daylight
  saving), so the local date and time fields of an instant are plain
  Euclidean divisions, which is what a JavaScript `Date`'s getHours,
  getMinutes, getSeconds and getMilliseconds return under that assumption.
  A calendar day is an abstract day number.
*/
module TimeGrid {

  const SlotsPerDay: nat := 288
  const LastSlot: nat := 287
  const SlotsPerHour: nat := 12
  const SlotMinutes: nat := 5

  const SecondMs: nat := 1000
  const MinuteMs: nat := 60 * SecondMs
  const HourMs: nat := 60 * MinuteMs
  const DayMs: nat := 24 * HourMs

  // ---------------------------------------------------------------------
  // Arithmetic helpers

  lemma MulAtLeast(a: int, d: int)
    requires a >= 1 && d > 0
    ensures a * d >= d
    decreases a
  {
    if a > 1 {
      MulAtLeast(a - 1, d);
      assert a * d == (a - 1) * d + d;
    }
  }

  /** Euclidean division is determined by quotient and remainder. */
  lemma DivModUnique(n: int, d: int, q: int, r: int)
    requires d > 0 && 0 <= r < d && n == q * d + r
    ensures n / d == q && n % d == r
  {
    var q0, r0 := n / d, n % d;
    assert n == q0 * d + r0;
    if q > q0 {
      MulAtLeast(q - q0, d);
    } else if q < q0 {
      MulAtLeast(q0 - q, d);
    }
  }

  // ---------------------------------------------------------------------
  // Fields of an instant

  function DayOf(t: int): int { t / DayMs }

  function HourOf(t: int): nat { (t % DayMs) / HourMs }

  function MinuteOf(t: int): nat { (t % HourMs) / MinuteMs }

  function SecondOf(t: int): nat { (t % MinuteMs) / SecondMs }

  function MillisOf(t: int): nat { t % SecondMs }

  /** The instant of the given day at the given local time of day. */
  function At(day: int, hour: int, minute: int, second: int, ms: int): int {
    day * DayMs + hour * HourMs + minute * MinuteMs + second * SecondMs + ms
  }

  /** Building an instant from in-range fields and reading the fields back agree. */
  lemma AtFields(day: int, hour: nat, minute: nat, second: nat, ms: nat)
    requires hour < 24 && minute < 60 && second < 60 && ms < 1000
    ensures DayOf(At(day, hour, minute, second, ms)) == day
    ensures HourOf(At(day, hour, minute, second, ms)) == hour
    ensures MinuteOf(At(day, hour, minute, second, ms)) == minute
    ensures SecondOf(At(day, hour, minute, second, ms)) == second
    ensures MillisOf(At(day, hour, minute, second, ms)) == ms
  {
    var t := At(day, hour, minute, second, ms);
    var inSecond := ms;
    var inMinute := second * SecondMs + inSecond;
    var inHour := minute * MinuteMs + inMinute;
    var inDay := hour * HourMs + inHour;
    DivModUnique(t, DayMs, day, inDay);
    DivModUnique(inDay, HourMs, hour, inHour);
    DivModUnique(t, HourMs, day * 24 + hour, inHour);
    DivModUnique(inHour, MinuteMs, minute, inMinute);
    DivModUnique(t, MinuteMs, (day * 24 + hour) * 60 + minute, inMinute);
    DivModUnique(inMinute, SecondMs, second, inSecond);
    DivModUnique(t, SecondMs, ((day * 24 + hour) * 60 + minute) * 60 + second, inSecond);
  }

  /** Every instant is the sum of its fields, and every field is in range. */
  lemma FieldsOf(t: int)
    ensures HourOf(t) < 24 && MinuteOf(t) < 60 && SecondOf(t) < 60 && MillisOf(t) < 1000
    ensures t == At(DayOf(t), HourOf(t), MinuteOf(t), SecondOf(t), MillisOf(t))
  {
    var d, h, m, s, ms := t / DayMs, (t % DayMs) / HourMs, (t % HourMs) / MinuteMs,
                          (t % MinuteMs) / SecondMs, t % SecondMs;
    var inDay := t % DayMs;
    DivModUnique(inDay, HourMs, h, inDay % HourMs);
    assert h < 24;
    var inHour := inDay % HourMs;
    DivModUnique(t, HourMs, d * 24 + h, inHour);
    DivModUnique(inHour, MinuteMs, m, inHour % MinuteMs);
    var inMinute := inHour % MinuteMs;
    DivModUnique(t, MinuteMs, (d * 24 + h) * 60 + m, inMinute);
    DivModUnique(inMinute, SecondMs, s, inMinute % SecondMs);
    DivModUnique(t, SecondMs, ((d * 24 + h) * 60 + m) * 60 + s, inMinute % SecondMs);
  }

  // ---------------------------------------------------------------------
  // Slots

  /** The slot of an instant: hour * 12 + floor(minute / 5). */
  function SlotOf(t: int): (slot: nat)
    ensures slot < SlotsPerDay
  {
    FieldsOf(t);
    HourOf(t) * SlotsPerHour + MinuteOf(t) / SlotMinutes
  }

  /** The start of slot `index` on `day`: minute and hour set, second and ms zero. */
  function DateTimeForIndex(day: int, index: nat): int {
    At(day, index / SlotsPerHour, (index % SlotsPerHour) * SlotMinutes, 0, 0)
  }

  /** Grid round trip: slot i of a day starts at hour i / 12, minute (i % 12) * 5,
      second 0, ms 0, on that day, and the slot of that instant is i again. */
  lemma {:induction false} GridRoundTrip(day: int, i: nat)
    requires i < SlotsPerDay
    ensures DayOf(DateTimeForIndex(day, i)) == day
    ensures HourOf(DateTimeForIndex(day, i)) == i / SlotsPerHour
    ensures MinuteOf(DateTimeForIndex(day, i)) == (i % SlotsPerHour) * SlotMinutes
    ensures SecondOf(DateTimeForIndex(day, i)) == 0
    ensures MillisOf(DateTimeForIndex(day, i)) == 0
    ensures SlotOf(DateTimeForIndex(day, i)) == i
  {
    AtFields(day, i / SlotsPerHour, (i % SlotsPerHour) * SlotMinutes, 0, 0);
  }

  /** The instant aligned to the grid (the source's "adjusted time"): the minute
      is truncated to a multiple of 5; second and millisecond are untouched. */
  function AlignToGrid(t: int): int {
    t - (MinuteOf(t) % SlotMinutes) * MinuteMs
  }

  lemma {:induction false} AlignToGridFields(t: int)
    ensures DayOf(AlignToGrid(t)) == DayOf(t) && HourOf(AlignToGrid(t)) == HourOf(t)
    ensures MinuteOf(AlignToGrid(t)) == MinuteOf(t) - MinuteOf(t) % SlotMinutes
    ensures MinuteOf(AlignToGrid(t)) % SlotMinutes == 0
    ensures SecondOf(AlignToGrid(t)) == SecondOf(t) && MillisOf(AlignToGrid(t)) == MillisOf(t)
    ensures AlignToGrid(t) <= t < AlignToGrid(t) + SlotMinutes * MinuteMs
    ensures SlotOf(AlignToGrid(t)) == SlotOf(t)
    ensures AlignToGrid(AlignToGrid(t)) == AlignToGrid(t)
  {
    FieldsOf(t);
    var m := MinuteOf(t) - MinuteOf(t) % SlotMinutes;
    assert AlignToGrid(t) == At(DayOf(t), HourOf(t), m, SecondOf(t), MillisOf(t));
    AtFields(DayOf(t), HourOf(t), m, SecondOf(t), MillisOf(t));
  }

  /** The start of the slot holding `t` is `t` aligned to the grid with its
      seconds and milliseconds dropped. */
  lemma {:induction false} SlotStart(t: int)
    ensures DateTimeForIndex(DayOf(t), SlotOf(t))
         == AlignToGrid(t) - SecondOf(t) * SecondMs - MillisOf(t)
  {
    FieldsOf(t);
    var slot := SlotOf(t);
    assert slot / SlotsPerHour == HourOf(t);
    assert (slot % SlotsPerHour) * SlotMinutes == MinuteOf(t) - MinuteOf(t) % SlotMinutes;
  }

  /** The index clamp of `updateTimeline`: at most `maxIndex` on today, at most
      287 on any other day, and never below 0. */
  function ClampIndex(index: int, maxIndex: int, isToday: bool): (r: int)
    ensures 0 <= r
    ensures isToday ==> r <= maxIndex || (maxIndex < 0 && r == 0)
    ensures !isToday ==> r <= LastSlot
    ensures r <= index || r == 0
    ensures 0 <= index && (if isToday then index <= maxIndex else index <= LastSlot) ==> r == index
  {
    var capped := if isToday then Min(index, maxIndex) else Min(index, LastSlot);
    Max(0, capped)
  }

  function Min(a: int, b: int): int { if a <= b then a else b }

  function Max(a: int, b: int): int { if a >= b then a else b }

  // ---------------------------------------------------------------------
  // Slot labels "HH:MM"

  function Digit(d: nat): char
    requires d < 10
  {
    (('0' as int) + d) as char
  }

  function DigitValue(c: char): int {
    (c as int) - ('0' as int)
  }

  /** `n.toString().padStart(2, '0')` for n < 100. */
  function Pad2(n: nat): string
    requires n < 100
  {
    [Digit(n / 10), Digit(n % 10)]
  }

  /** The label of slot i as `generateTimeSlots` writes it. */
  function SlotLabel(i: nat): string
    requires i < SlotsPerDay
  {
    Pad2(i / SlotsPerHour) + ":" + Pad2((i % SlotsPerHour) * SlotMinutes)
  }

  /** The slot named by a label "HH:MM": hour * 12 + minute / 5. */
  function SlotOfLabel(text: string): int
    requires |text| == 5
  {
    (DigitValue(text[0]) * 10 + DigitValue(text[1])) * SlotsPerHour
      + (DigitValue(text[3]) * 10 + DigitValue(text[4])) / SlotMinutes
  }

  /** Reading a slot label back gives the slot. */
  lemma LabelRoundTrip(i: nat)
    requires i < SlotsPerDay
    ensures |SlotLabel(i)| == 5 && SlotLabel(i)[2] == ':'
    ensures SlotOfLabel(SlotLabel(i)) == i
  {
    var h, m := i / SlotsPerHour, (i % SlotsPerHour) * SlotMinutes;
    assert SlotLabel(i) == [Digit(h / 10), Digit(h % 10), ':', Digit(m / 10), Digit(m % 10)];
  }

  /** Distinct slots have distinct labels. */
  lemma LabelsDistinct(i: nat, j: nat)
    requires i < SlotsPerDay && j < SlotsPerDay && i != j
    ensures SlotLabel(i) != SlotLabel(j)
  {
    LabelRoundTrip(i);
    LabelRoundTrip(j);
  }

  /** The 288 slot labels in order: the value of the card's `timeSlots`. */
  function TimeSlots(): seq<string> {
    seq(SlotsPerDay, i requires 0 <= i < SlotsPerDay => SlotLabel(i))
  }

  /** The set of all slot labels. */
  function LabelSet(): set<string> {
    set i | 0 <= i < SlotsPerDay :: SlotLabel(i)
  }

  /** `generateTimeSlots`: hours 0..23, minutes 0, 5, ..., 55. */
  method GenerateTimeSlots() returns (slots: seq<string>)
    ensures |slots| == SlotsPerDay
    ensures forall i :: 0 <= i < SlotsPerDay ==> slots[i] == SlotLabel(i)
  {
    slots := [];
    var hour := 0;
    while hour < 24
      invariant 0 <= hour <= 24
      invariant |slots| == hour * SlotsPerHour
      invariant forall i :: 0 <= i < |slots| ==> slots[i] == SlotLabel(i)
    {
      var minute := 0;
      while minute < 60
        invariant 0 <= minute <= 60 && minute % SlotMinutes == 0
        invariant |slots| == hour * SlotsPerHour + minute / SlotMinutes
        invariant forall i :: 0 <= i < |slots| ==> slots[i] == SlotLabel(i)
      {
        ghost var i := hour * SlotsPerHour + minute / SlotMinutes;
        assert i / SlotsPerHour == hour && (i % SlotsPerHour) * SlotMinutes == minute;
        slots := slots + [Pad2(hour) + ":" + Pad2(minute)];
        minute := minute + SlotMinutes;
      }
      hour := hour + 1;
    }
  }
}
