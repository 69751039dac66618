/** Option and Result values shared by every component of the front end. */
module Wrappers {

  /** java.util.Optional: either empty or holding one value. */
  datatype Option<+T> = None | Some(value: T)

  /** popsi.Result: a successful value or an error value. */
  datatype Result<+T, +E> = Success(value: T) | Error(error: E) {
    predicate IsSuccess() { Success? }
  }
}
