/** Option and Result values for optional dictionary entries and for the
    exceptions the dispatch code raises. */
module Wrappers {

  datatype Option<+T> = None | Some(value: T)

  datatype Result<+T, +E> = Ok(value: T) | Err(error: E)
}
