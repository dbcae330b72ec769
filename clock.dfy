/** Instants as `DateTime` ticks (100 ns) in UTC, and the calendar
    arithmetic the query engine uses. */
module Clock {

  const TicksPerMillisecond: int := 10_000
  const TicksPerMinute: int := 60 * 1000 * TicksPerMillisecond
  const TicksPerDay: int := 24 * 60 * TicksPerMinute

  /** `DateTime.AddDays` for a whole number of days. */
  function AddDays(t: int, days: int): (r: int)
    ensures days <= 0 ==> r <= t
  {
    t + days * TicksPerDay
  }

  /** `DateTime.AddMinutes` for a whole number of minutes. */
  function AddMinutes(t: int, minutes: int): (r: int)
    ensures minutes >= 0 ==> r >= t
  {
    t + minutes * TicksPerMinute
  }

  /** `DateTime.AddMonths` is calendar arithmetic; the model takes it as a
      function `addMonths(t, k)` and asks of it only what the Gregorian
      calendar guarantees: one month back is 28 to 31 days back, three
      months back is 89 to 92 days back. */
  predicate GregorianMonths(addMonths: (int, int) -> int, now: int) {
    && AddDays(now, -31) <= addMonths(now, -1) <= AddDays(now, -28)
    && AddDays(now, -92) <= addMonths(now, -3) <= AddDays(now, -89)
  }
}
