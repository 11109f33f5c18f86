/** Failure-carrying values used for the source's exceptions and null results. */
module Wrappers {

  datatype Option<+T> = None | Some(value: T)

  datatype Result<+R, +E> = Success(value: R) | Failure(error: E)

  /** A pass/fail outcome for operations whose source returns void or throws. */
  datatype Outcome<+E> = Pass | Fail(error: E)
}
