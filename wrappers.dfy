/** Option and Result, the two failure-carrying shapes the model uses for the
    source's error dialogs and exceptions. */
module Wrappers {

  datatype Option<+T> = None | Some(value: T)

  datatype Result<+T, +E> = Ok(value: T) | Err(error: E)
}
