/** Durations, counted in nanoseconds. */
module Durations {

  const SECOND := 1_000_000_000
}
