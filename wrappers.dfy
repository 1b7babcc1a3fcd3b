/** Nullable values and results with an error, as used throughout the model. */
module Wrappers {

  /** A value that may be absent: C#'s `null` for reference and nullable types. */
  datatype Option<+T> = None | Some(value: T)

  /** The outcome of an operation that can throw: a value, or the reason it failed. */
  datatype Result<+R, +E> = Ok(value: R) | Err(error: E)
}
