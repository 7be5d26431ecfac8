/** Optional values and results with an error, shared by every module of the model. */
module Wrappers {

  /** A value that may be missing: a SQL NULL, an empty session, a row that was not found. */
  datatype Option<+T> = None | Some(value: T)

  /** The outcome of an operation that can be refused with an error. */
  datatype Result<+T, +E> = Success(value: T) | Failure(error: E)
}
