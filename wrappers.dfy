/** Optional values and results with an error, used by every other module. */
module Wrappers {

  /** A value that may be absent (JavaScript `undefined`, SQL NULL, a missing row). */
  datatype Option<+T> = None | Some(value: T)

  /** Either the value an operation returns or the error it throws. */
  datatype Result<+T, +E> = Ok(value: T) | Err(error: E)
}
