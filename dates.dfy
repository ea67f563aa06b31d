/** Instants are milliseconds since 1970-01-01T00:00 in one fixed zone (no
    daylight-saving shifts), so a day is always 86 400 000 ms long.
    Day 0 (1970-01-01) was a Thursday. */
module Dates {
  const DayMs := 86_400_000
  const WeekMs := 7 * DayMs
  const MinuteMs := 60_000

  /** java.util.Calendar's DAY_OF_WEEK constants. */
  const SUNDAY := 1
  const MONDAY := 2
  const TUESDAY := 3
  const WEDNESDAY := 4
  const THURSDAY := 5
  const FRIDAY := 6
  const SATURDAY := 7

  /** Kotlin/Java integer division by a positive constant, rounding toward zero. */
  function TruncDiv(a: int, b: int): (q: int)
    requires b > 0
    ensures a >= 0 ==> 0 <= q && q * b <= a < q * b + b
    ensures a < 0 ==> q <= 0 && q * b - b < a <= q * b
  {
    if a >= 0 then a / b else -((-a) / b)
  }

  /** Kotlin/Java `%` by a positive constant: the remainder takes the sign of
      the dividend, which with TruncDiv characterises truncating division. */
  function TruncMod(a: int, b: int): (m: int)
    requires b > 0
    ensures a == TruncDiv(a, b) * b + m
    ensures a >= 0 ==> 0 <= m < b
    ensures a < 0 ==> -b < m <= 0
  {
    a - TruncDiv(a, b) * b
  }

  /** The day an instant falls on (days since 1970-01-01). */
  function DayOf(t: int): int { t / DayMs }

  /** Calendar.get(DAY_OF_WEEK) for an instant: 1 = Sunday .. 7 = Saturday. */
  function DayOfWeek(t: int): (d: int)
    ensures SUNDAY <= d <= SATURDAY
  {
    (DayOf(t) + 4) % 7 + 1
  }

  /** calendar.add(DAY_OF_MONTH, n). */
  function AddDays(t: int, n: int): int { t + n * DayMs }

  /** calendar.add(WEEK_OF_YEAR, n). */
  function AddWeeks(t: int, n: int): int { t + n * WeekMs }

  lemma DayOfAddDays(t: int, n: int)
    ensures DayOf(AddDays(t, n)) == DayOf(t) + n
  {
    assert AddDays(t, n) == (DayOf(t) + n) * DayMs + t % DayMs;
  }

  /** Moving one day ahead moves DAY_OF_WEEK one step round the week. */
  lemma DayOfWeekNext(t: int)
    ensures DayOfWeek(AddDays(t, 1)) == DayOfWeek(t) % 7 + 1
  {
    DayOfAddDays(t, 1);
  }

  /** Within any 7 consecutive days every weekday occurs: this is the offset
      (0..6) of weekday `w` counted from `t`. */
  lemma WeekdayWithinWeek(t: int, w: int) returns (k: int)
    requires SUNDAY <= w <= SATURDAY
    ensures 0 <= k < 7 && DayOfWeek(AddDays(t, k)) == w
  {
    k := (w - DayOfWeek(t)) % 7;
    DayOfAddDays(t, k);
  }
}
