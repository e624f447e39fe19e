/** Small failure-carrying datatypes shared by the whole model. */
module Wrappers {

  /** A value that may be JavaScript's `null`. */
  datatype Option<T> = None | Some(value: T)

  /** The outcome of a call that may throw: its value, or the message of the thrown `Error`. */
  datatype Result<T> = Ok(value: T) | Err(message: string)
}
