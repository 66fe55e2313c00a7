/** Failure-carrying return values shared by the bond store and the autotuner. */
module Outcomes {

  /** A value that may be absent (a constructor that threw yields None). */
  datatype Option<+T> = None | Some(value: T)

  /** The value of a call that either succeeds or reports an error. */
  datatype Result<+T, +E> = Ok(value: T) | Err(error: E)

  /** A call that returns nothing but may fail. */
  datatype Outcome<+E> = Pass | Fail(error: E)
}
