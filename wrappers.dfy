/** The two result wrappers the model uses in place of JavaScript's empty strings, NaN and early returns. */
module Wrappers {
  datatype Option<T> = None | Some(value: T)

  datatype Result<T, E> = Success(value: T) | Failure(error: E)
}
