/** Option and Result, the two failure-compatible wrappers the model uses for
    the source's `null`/`undefined` values and for its error responses. */
module Wrappers {

  datatype Option<+T> = None | Some(value: T)

  datatype Result<+R, +E> = Success(value: R) | Failure(error: E)
}
