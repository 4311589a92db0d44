/** Option and Result, the two failure-carrying wrappers the model uses. */
module Wrappers {

  /** A value that may be absent: `undefined` for a property lookup, a thrown
      exception for `JSON.parse`, `null` for `extractJson`. */
  datatype Option<+T> = None | Some(value: T)

  /** Either a value to carry on with or an error response that ends the request. */
  datatype Result<+T, +E> = Success(value: T) | Failure(error: E)
}
