/** Option and Result wrappers shared by every module of the model. */
module Common {

  /** A JavaScript value that may be `null`/`undefined` (None) or present (Some). */
  datatype Option<+T> = None | Some(value: T)

  /** The outcome of an operation that can abort with an error. */
  datatype Result<+T, +E> = Ok(value: T) | Err(error: E)
}
