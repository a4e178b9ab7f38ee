/** Option and Result, for the nullable references and the exceptions of the source. */
module Wrappers {

  /** A value that may be absent (a C# null). */
  datatype Option<+T> = None | Some(value: T)

  /** The outcome of an operation that may throw: its value, or the failure it raised. */
  datatype Result<+T, +E> = Ok(value: T) | Err(error: E)
}
