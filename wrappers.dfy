/** Optional values and results with an error message, shared by the modules below. */
module Wrappers {

  /** A value that may be absent: JavaScript's `null`/`undefined` returns. */
  datatype Option<+T> = None | Some(value: T)

  /** Either a value or the message of the `Error` the JavaScript code throws. */
  datatype Result<+T> = Success(value: T) | Failure(error: string)
}
