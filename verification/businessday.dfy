/** The business-day calendar (internal/businessday/businessday.go) for a fixed UTC offset. */
module BusinessDay {
  import opened Basics

  /** The text of a service date: a calendar day, counted in days from the Unix epoch, or a text that
      is no date at all. */
  datatype ServiceDate = Day(number: int) | Malformed(text: string)

  datatype Calendar = Calendar(offset: int, cutoffHour: int)

  predicate Usable(c: Calendar) {
    0 <= c.cutoffHour <= 23
  }

  function New(offset: int, cutoffHour: int): Result<Calendar> {
    if cutoffHour < 0 || cutoffHour > 23 then Err(Validation) else Ok(Calendar(offset, cutoffHour))
  }

  function LocalDay(c: Calendar, at: Time): int { (at + c.offset) / DAY }

  function LocalHour(c: Calendar, at: Time): int { (at + c.offset) % DAY / HOUR }

  function DateOf(c: Calendar, at: Time): ServiceDate {
    if LocalHour(c, at) < c.cutoffHour then Day(LocalDay(c, at) - 1) else Day(LocalDay(c, at))
  }

  function Bounds(c: Calendar, date: ServiceDate): Result<(Time, Time)> {
    match date
    case Malformed(_) => Err(Validation)
    case Day(n) =>
      var start := n * DAY - c.offset + c.cutoffHour * HOUR;
      Ok((start, start + 24 * HOUR))
  }

  function ValidateWindow(c: Calendar, date: ServiceDate, start: Time, end: Time): Check {
    var bounds :- Bounds(c, date);
    var (lower, upper) := bounds;
    if start < lower || !(start < upper) then Err(Validation)
    else if !(end > start) || end > upper then Err(Validation)
    else PASS
  }

  function Next(date: ServiceDate): Result<ServiceDate> {
    match date
    case Malformed(_) => Err(Validation)
    case Day(n) => Ok(Day(n + 1))
  }

  predicate Within(c: Calendar, date: ServiceDate, at: Time) {
    Bounds(c, date).Ok? && Bounds(c, date).value.0 <= at < Bounds(c, date).value.1
  }

  /** Every instant lies in the bounds of its own service date and of no other. */
  lemma BoundsHoldExactlyTheDate(c: Calendar, date: ServiceDate, at: Time)
    requires Usable(c)
    ensures Within(c, date, at) <==> DateOf(c, at) == date
  {
    if date.Day? {
      var local := at + c.offset;
      var day, hour := local / DAY, local % DAY / HOUR;
      assert local == day * DAY + local % DAY;
      assert hour * HOUR <= local % DAY < (hour + 1) * HOUR;
      assert Within(c, date, at)
             <==> date.number * DAY + c.cutoffHour * HOUR <= local < (date.number + 1) * DAY + c.cutoffHour * HOUR;
      if hour < c.cutoffHour {
        assert local % DAY < c.cutoffHour * HOUR;
        assert (day - 1) * DAY + c.cutoffHour * HOUR <= local < day * DAY + c.cutoffHour * HOUR;
      } else {
        assert local % DAY >= c.cutoffHour * HOUR;
        assert day * DAY + c.cutoffHour * HOUR <= local < (day + 1) * DAY + c.cutoffHour * HOUR;
      }
    }
  }

  /** A service date is twenty-four hours, from the cutoff hour on that day's local clock. */
  lemma DatesStartAtTheCutoff(c: Calendar, n: int)
    ensures Bounds(c, Day(n)).Ok? && forall text :: Bounds(c, Malformed(text)) == Err(Validation)
    ensures var (lower, upper) := Bounds(c, Day(n)).value;
      && lower + c.offset == (n * 24 + c.cutoffHour) * 3_600_000_000_000
      && upper == lower + 24 * 3_600_000_000_000
  {
  }

  /** Consecutive service days meet without a gap. */
  lemma ConsecutiveDaysMeet(c: Calendar, date: ServiceDate)
    requires date.Day?
    ensures Bounds(c, date).value.1 == Bounds(c, Next(date).value).value.0
  {
  }

  /** Windows accepted for different service dates never overlap. */
  lemma DifferentDatesNeverOverlap(c: Calendar, d1: ServiceDate, d2: ServiceDate, s1: Time, e1: Time, s2: Time,
                                   e2: Time)
    requires Usable(c) && d1 != d2
    requires ValidateWindow(c, d1, s1, e1).Ok? && ValidateWindow(c, d2, s2, e2).Ok?
    ensures !(s1 < e2 && s2 < e1)
  {
    if s1 < e2 && s2 < e1 {
      // The later start lies inside both windows, hence in both days.
      var at := if s1 < s2 then s2 else s1;
      BoundsHoldExactlyTheDate(c, d1, at);
      BoundsHoldExactlyTheDate(c, d2, at);
    }
  }
}
