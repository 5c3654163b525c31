/** Option and Result, the two failure-carrying datatypes of the model. */
module Wrappers {

  /** A value that may be absent: JavaScript's null/undefined, or a number that is not finite. */
  datatype Option<+T> = None | Some(value: T)

  /** An operation that may fail with a message, as the source's thrown errors are reported. */
  datatype Result<+T> = Ok(value: T) | Err(message: string)
}
