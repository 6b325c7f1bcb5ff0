/** Option and Result: the model's way of writing JavaScript's `null`/`undefined`/`NaN`
    and thrown errors as values. */
module Wrappers {

  /** `None` stands for a value that is absent (`undefined`, `null`) or not a number (`NaN`). */
  datatype Option<+T> = None | Some(value: T)

  /** A computation that either produced a value or threw an error with a message. */
  datatype Result<+T, +E> = Success(value: T) | Failure(error: E)
}
