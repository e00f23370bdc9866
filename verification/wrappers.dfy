/** Failure-carrying wrappers used across the model: the source's nullable
    values become `Option`, and its thrown errors become `Result.Failure`. */
module Wrappers {

  datatype Option<+T> = None | Some(value: T)

  datatype Result<+T, +E> = Success(value: T) | Failure(error: E)
}
