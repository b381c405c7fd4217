/** The small result types the other modules share. */
module Wrappers {
  datatype Option<+T> = None | Some(value: T)

  /** Time is a count of nanoseconds, as in Go's `time.Duration`. */
  const MILLISECOND := 1_000_000
  const SECOND := 1_000_000_000
  const MINUTE := 60 * SECOND
}
