/** Nullable references and the outcome of an operation that can throw. */
module Wrappers {

  /** `None` stands for a C# `null`. */
  datatype Option<+T> = None | Some(value: T)

  /** `Failure` stands for an exception that escapes the call. */
  datatype Result<+R, +E> = Success(value: R) | Failure(error: E)
}
