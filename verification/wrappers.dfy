/** Failure-carrying wrappers used by the rest of the model. */
module Wrappers {

  /** An optional value: an omitted field, or a `null` placeholder, is `None`. */
  datatype Option<+T> = None | Some(value: T)

  /** Either a value or the error that prevented building it. */
  datatype Result<+T, +E> = Success(value: T) | Failure(error: E)
}
