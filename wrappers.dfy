/** Optional values and results with an error, as used throughout the model. */
module Wrappers {

  datatype Option<+T> = None | Some(value: T)

  /** A computation that either produced a value or raised an exception.
      The message names the Python exception the source would raise. */
  datatype Result<+T> = Ok(value: T) | Err(error: string)
}
