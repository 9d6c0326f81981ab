/** Failure-carrying datatypes shared by the model: an optional value (the
    source's `null`/`undefined`) and a success-or-error result (the source's
    error toasts followed by an early `return`). */
module Wrappers {

  datatype Option<+T> = None | Some(value: T)

  datatype Result<+R, +E> = Success(value: R) | Failure(error: E)
}
