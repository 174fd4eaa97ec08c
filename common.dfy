/** Failure-compatible wrappers shared by every module of the model. */
module Common {

  /** A value that may be absent: Python's `None` or a value. */
  datatype Option<+T> = None | Some(value: T)

  /** The outcome of a call that may raise: a value or the exception's message. */
  datatype Result<+T> = Success(value: T) | Failure(error: string)
}
