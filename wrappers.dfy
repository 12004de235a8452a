/** Value types used throughout the model: a nullable value,
    a value-or-exception, and a pass-or-exception outcome of a void operation. */
module Wrappers {

  /** A value that may be absent; stands for a C# reference that may be null. */
  datatype Option<+T> = None | Some(value: T)

  /** The result of an operation that returns a value or throws. */
  datatype Result<+R, +E> = Success(value: R) | Failure(error: E)

  /** The outcome of a void operation that completes or throws. */
  datatype Outcome<+E> = Pass | Fail(error: E)
}
