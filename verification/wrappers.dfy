/** The optional value used for JavaScript's `undefined`/`null`, and a success-or-failure
    result, used throughout the model. */
module Wrappers {
  datatype Option<+T> = None | Some(value: T)

  datatype Result<+T, +E> = Success(value: T) | Failure(error: E)
}
