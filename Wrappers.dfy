/** Option and Result, the two failure-carrying datatypes the model uses. */
module Wrappers {

  /** A value that may be absent: an optional request field, or a JavaScript
      Date that may be invalid. */
  datatype Option<+T> = None | Some(value: T)

  /** The outcome of a request handler: a reply, or the error it reports. */
  datatype Result<+R, +E> = Success(value: R) | Failure(error: E)
}
