/** Failure-compatible wrappers used throughout the model.
    `Option<string>` stands for a C# `string` reference that may be null;
    `Result` stands for a call that either returns or throws. */
module Wrappers {

  /** A value that may be absent (a null reference in the source). */
  datatype Option<+T> = None | Some(value: T)

  /** The outcome of a call that may throw: a value, or the exception raised. */
  datatype Result<+R, +E> = Success(value: R) | Failure(error: E)
}
