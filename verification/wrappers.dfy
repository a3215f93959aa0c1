/** The optional and success-or-error types used by the trial model. */
module Wrappers {

  /** An optional value: the model's stand-in for a field that may be `None`. */
  datatype Option<+T> = None | Some(value: T)

  /** Either a success value or an error describing why the operation failed. */
  datatype Result<+R, +E> = Success(value: R) | Failure(error: E)
}
