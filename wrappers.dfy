/** Option and Result, the two failure-carrying datatypes the model uses for
    the source's error returns and optional values. */
module Wrappers {

  datatype Option<+T> = None | Some(value: T)

  datatype Result<+R, +E> = Ok(value: R) | Err(error: E)
}
