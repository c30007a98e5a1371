/** Option and Result values shared by the other modules. */
module Wrappers {

  /** A value that may be absent (Python's `None`). */
  datatype Option<+T> = None | Some(value: T)

  /** A value or the error that stands for a raised exception. */
  datatype Result<+R, +E> = Success(value: R) | Failure(error: E)
}
