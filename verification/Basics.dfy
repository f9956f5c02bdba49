/** The values every part of the model shares: optional values, outcomes that may be errors,
    instants that may not have come, and the units the program counts in. */
module Basics {
  datatype Option<+T> = None | Some(value: T)

  datatype Result<+T, +E> = Ok(value: T) | Err(error: E)

  datatype Instant = Never | At(time: int)

  datatype Metric = Milliseconds | Bytes | Unsupported

  /** Durations are signed 64-bit numbers of nanoseconds. */
  const SECOND: int := 1_000_000_000
  const MILLISECOND: int := 1_000_000
  const MAX_DURATION: int := 0x7FFF_FFFF_FFFF_FFFF

  predicate Distinct<T(==)>(s: seq<T>) {
    forall i, j :: 0 <= i < j < |s| ==> s[i] != s[j]
  }
}
