/** Durations are counted in nanoseconds. */
module Durations {
  const MILLISECOND := 1_000_000
  const SECOND := 1000 * MILLISECOND
}
