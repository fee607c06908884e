/** Option and Result, the error-carrying values the model uses for Python's
    `None` and for exceptions a caller catches. */
module Wrappers {

  datatype Option<+T> = None | Some(value: T)

  datatype Result<+R, +E> = Ok(value: R) | Err(error: E)
}
