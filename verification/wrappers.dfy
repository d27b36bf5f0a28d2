/** Small failure-carrying datatypes shared by the whole model. */
module Wrappers {

  datatype Option<+T> = None | Some(value: T)

  /** The outcome of an operation that may raise: the JavaScript `throw` paths. */
  datatype Result<+T, +E> = Ok(value: T) | Err(error: E)
}
