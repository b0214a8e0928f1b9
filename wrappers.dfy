/** Option and Result, the failure-carrying values every module returns
    instead of Go's (value, error) pairs and nil results. */
module Wrappers {

  datatype Option<+T> = None | Some(value: T)

  datatype Result<+T, +E> = Ok(value: T) | Err(error: E)
}
