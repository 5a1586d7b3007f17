/** Option and Result, the shapes the handlers' collaborators return in Go's
    `(value, error)` style. */
module Wrappers {

  datatype Option<+T> = None | Some(value: T)

  datatype Result<+R, +E> = Ok(value: R) | Err(error: E)
}
