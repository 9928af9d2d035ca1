/** Option and Result, the two wrappers the model uses for "no value" and
    for the error outcomes of the builders. */
module Wrappers {

  datatype Option<+T> = None | Some(value: T)

  datatype Result<+T, +E> = Ok(value: T) | Err(error: E)
}
