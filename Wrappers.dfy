/** Option and Result values used in place of Python's None and raised exceptions. */
module Wrappers {

  /** A value that may be absent (Python's Optional / None). */
  datatype Option<+T> = None | Some(value: T)

  /** The outcome of a validator: it returns its value, or raises with a message. */
  datatype Result<+T> = Ok(value: T) | Err(message: string)
}
