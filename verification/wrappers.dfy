/** Optional values and results with an error, shared by the bot and the user model. */
module Wrappers {

  /** A value that may be absent, as an optional parameter or `undefined` is. */
  datatype Option<+T> = None | Some(value: T)

  /** The outcome of an operation that can fail with an error of type E. */
  datatype Result<+T, +E> = Success(value: T) | Failure(error: E)
}
