/** Failure-compatible wrappers used across the model: an optional value (a nullable
    field in the C# code) and a success-or-failure result (a thrown exception). */
module Wrappers {

  datatype Option<+T> = None | Some(value: T)

  datatype Result<+R, +E> = Success(value: R) | Failure(error: E)
}
