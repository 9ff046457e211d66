/** Fixed-standard climate days (forecaster/settlement_calendar.py). Instants are microseconds since the UTC epoch. */
module SettlementCalendar {

  const MICROS_PER_HOUR := 3_600_000_000
  const MICROS_PER_DAY := 24 * MICROS_PER_HOUR

  /** The climate date of an instant in a zone `offset` hours from UTC; floor division, as in the source. */
  function LocalStandardDate(instant: int, offset: int): int {
    (instant + offset * MICROS_PER_HOUR) / MICROS_PER_DAY
  }

  /** Microseconds past that day's local midnight. */
  function TimeOfDay(instant: int, offset: int): (r: int)
    ensures 0 <= r < MICROS_PER_DAY
  {
    (instant + offset * MICROS_PER_HOUR) % MICROS_PER_DAY
  }

  function WindowStart(day: int, offset: int): int {
    day * MICROS_PER_DAY - offset * MICROS_PER_HOUR
  }

  function WindowEnd(day: int, offset: int): int {
    WindowStart(day, offset) + MICROS_PER_DAY
  }

  /** Dates and windows are inverse: an instant has a date exactly when it lies in that date's window. */
  lemma DateIffInWindow(instant: int, day: int, offset: int)
    ensures LocalStandardDate(instant, offset) == day
        <==> WindowStart(day, offset) <= instant < WindowEnd(day, offset)
  {
  }

  lemma DatesAreMonotone(before: int, after: int, offset: int)
    requires before <= after
    ensures LocalStandardDate(before, offset) <= LocalStandardDate(after, offset)
  {
  }

  /** A date and a time of day pin down the instant. */
  lemma InstantFromParts(a: int, b: int, offset: int)
    requires LocalStandardDate(a, offset) == LocalStandardDate(b, offset)
    requires TimeOfDay(a, offset) == TimeOfDay(b, offset)
    ensures a == b
  {
  }
}
