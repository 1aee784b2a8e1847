/** The day window shared by `isDeadlineNear` (project calls) and
    `isEventSoon` (events): `Math.ceil(diffTime / (1000 * 60 * 60 * 24))`
    tested against `0 < d <= n`. The millisecond difference between the date
    and now is an integer parameter; parsing the date and reading the clock
    stay outside the model. */
module Deadlines {

  /** Milliseconds in a day: 1000 * 60 * 60 * 24. */
  const DayMs: int := 86400000

  /** `Math.ceil(diffMs / DayMs)` in exact arithmetic: the least whole
      number of days `d` with `diffMs <= d * DayMs`. */
  function DaysUntil(diffMs: int): (d: int)
    ensures (d - 1) * DayMs < diffMs <= d * DayMs
  {
    var q := (-diffMs) / DayMs;
    var r := (-diffMs) % DayMs;
    assert -diffMs == q * DayMs + r && 0 <= r < DayMs;
    -q
  }

  /** The shared test: the ceiled day count lies in (0, n]. */
  predicate WithinDays(diffMs: int, n: int) {
    var d := DaysUntil(diffMs);
    d <= n && d > 0
  }

  /** The day test is the millisecond interval (0, n * DayMs]: a date that is
      past or exactly now never qualifies, and one up to n whole days ahead
      does. */
  lemma WithinDaysIff(diffMs: int, n: nat)
    ensures WithinDays(diffMs, n) <==> 0 < diffMs <= n * DayMs
  {
    var d := DaysUntil(diffMs);
    if d > 0 {
      assert (d - 1) * DayMs >= 0;
    } else {
      assert d * DayMs <= 0;
    }
    if d <= n {
      MulMonotone(d, n);
    } else {
      MulMonotone(n, d - 1);
    }
  }

  lemma MulMonotone(a: int, b: int)
    requires a <= b
    ensures a * DayMs <= b * DayMs
  {
  }
}
