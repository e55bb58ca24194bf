/** Optional values and error-or-value results, used wherever the league code
    returns None or raises a validation error. */
module Wrappers {

  /** A value that may be absent (Python's None). */
  datatype Option<+T> = None | Some(value: T)

  /** Either an accepted value or the error a validator raised. */
  datatype Outcome<+T, +E> = Ok(value: T) | Err(error: E)
}
