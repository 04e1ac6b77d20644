/** Africa/Lagos calendar days over UTC milliseconds: a constant offset of one hour. A day is its
    number, counting from 1 January 1970. */
module LagosTime {

  const HOUR := 3_600_000
  const DAY := 86_400_000

  /** The Lagos calendar day of an instant (`lagosDateOnly`). */
  function DayOf(t: int): int { (t + HOUR) / DAY }

  /** The Lagos hour of an instant, 0 to 23 (`lagosHour`). */
  function HourOf(t: int): (h: int)
    ensures 0 <= h < 24
  {
    (t + HOUR) % DAY / HOUR
  }

  function DayStart(day: int): int { day * DAY - HOUR }

  /** Inclusive start and exclusive end of the Lagos day that holds an instant (`lagosDayBounds`). */
  function DayBounds(t: int): (int, int) { (DayStart(DayOf(t)), DayStart(DayOf(t) + 1)) }

  /** The half-open bounds of a day hold exactly the instants whose Lagos date is that day, so
      consecutive daily windows never share or drop an instant. */
  lemma {:induction false} BoundsAreTheDay(day: int, t: int)
    ensures DayStart(day) <= t < DayStart(day + 1) <==> DayOf(t) == day
    ensures DayBounds(t).0 <= t < DayBounds(t).1
  {
    var q, r := (t + HOUR) / DAY, (t + HOUR) % DAY;
    assert t + HOUR == q * DAY + r && 0 <= r < DAY;
    if q < day { assert q * DAY + DAY <= day * DAY; }
    if q > day { assert day * DAY + DAY <= q * DAY; }
  }

  /** A Lagos day begins at 23:00 UTC of the day before, one hour ahead of the UTC day whose number it
      carries, and an instant lies in the Lagos hour it is filed under. */
  lemma {:induction false} LagosIsAnHourAhead(day: int, t: int)
    ensures DayStart(day) == (day - 1) * 86_400_000 + 23 * 3_600_000
    ensures DayStart(DayOf(t)) + HourOf(t) * 3_600_000 <= t < DayStart(DayOf(t)) + (HourOf(t) + 1) * 3_600_000
  {
    var r := (t + HOUR) % DAY;
    assert t + HOUR == (t + HOUR) / DAY * DAY + r;
    assert r == r / HOUR * HOUR + r % HOUR;
  }

  /** The only day and hour of a day in whose hour the instant lies. */
  lemma {:induction false} HourIsUnique(t: int, day: int, h: int)
    requires 0 <= h < 24 && DayStart(day) + h * 3_600_000 <= t < DayStart(day) + (h + 1) * 3_600_000
    ensures day == DayOf(t) && h == HourOf(t)
  {
    BoundsAreTheDay(day, t);
    LagosIsAnHourAhead(day, t);
  }

  /** The days `first..last`, in order; empty when `last` is earlier. */
  function Days(first: int, last: int): (days: seq<int>)
    ensures |days| == if last < first then 0 else last - first + 1
    ensures forall i :: 0 <= i < |days| ==> days[i] == first + i
  {
    seq(if last < first then 0 else last - first + 1, i => first + i)
  }

  /** `eachLagosDay`: every Lagos day a range touches, both ends included. */
  method EachLagosDay(start: int, end: int) returns (days: seq<int>)
    ensures days == Days(DayOf(start), DayOf(end))
  {
    days := [];
    var cursor := DayOf(start);
    var last := DayOf(end);
    while cursor <= last
      invariant days == Days(DayOf(start), cursor - 1)
      invariant cursor == DayOf(start) || cursor <= last + 1
      decreases last - cursor
    {
      days := days + [cursor];
      cursor := cursor + 1;
    }
  }
}
