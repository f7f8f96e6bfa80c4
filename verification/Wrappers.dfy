/** Failure-carrying values used across the model: an optional value for the
    library parsers that may reject their input, and a result for the steps of
    the pipeline that end a question with a response code. */
module Wrappers {

  datatype Option<+T> = None | Some(value: T)

  datatype Result<+T, +E> = Ok(value: T) | Err(error: E)
}
