/** Option and Result values used for the nullable returns and the thrown errors of the program. */
module Wrappers {

  /** A value that may be absent (a JavaScript `null`, or a callback that is not passed). */
  datatype Option<+T> = None | Some(value: T)

  /** The outcome of a call that either returns a value or throws. */
  datatype Result<+T> = Ok(value: T) | Err(message: string)
}
