/** Option and Result, used for the nullable references and the exceptions of the source. */
module Wrappers {

  /** A value or nothing: Kotlin's nullable types (`File?`, `Session?`). */
  datatype Option<+T> = None | Some(value: T)

  /** A value or the exception that replaced it. */
  datatype Result<+R, +E> = Ok(value: R) | Err(error: E)
}
