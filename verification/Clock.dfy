/** Instants and durations. */
module Clock {
  /** Nanoseconds. */
  type Time = int

  const SECOND: Time := 1_000_000_000

  const MINUTE: Time := 60 * SECOND
}
