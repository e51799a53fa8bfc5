/** Absent values (SQL NULL, Go nil pointers) and operations that can fail. */
module Wrappers {
  datatype Option<+T> = None | Some(value: T)

  datatype Result<+T, +E> = Ok(value: T) | Err(error: E)

  /** Durations are counted in nanoseconds. */
  const SECOND := 1_000_000_000
}
