/** The Option and Result types shared by the alias store and the livecheck options. */
module Wrappers {

  /** Ruby's nil-or-value, as an explicit optional value. */
  datatype Option<+T> = None | Some(value: T)

  /** A value or the error condition that stops an operation. */
  datatype Result<+R, +E> = Success(value: R) | Failure(error: E)
}
