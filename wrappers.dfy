/** Option and Result, shared by the navigation bridge and the worker messaging model. */
module Wrappers {

  /** A value that may be absent: Swift's `Optional`, JavaScript's "nothing here". */
  datatype Option<+T> = None | Some(value: T)

  /** Either a value or the error that was thrown instead. */
  datatype Result<+R, +E> = Success(value: R) | Failure(error: E)
}
