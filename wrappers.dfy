/** Option, Result and Outcome: the model's stand-ins for `undefined`,
    for a value-or-thrown-error, and for a check that either passes or fails. */
module Wrappers {

  datatype Option<+T> = None | Some(value: T)

  datatype Result<+R, +E> = Success(value: R) | Failure(error: E)

  datatype Outcome<+E> = Pass | Fail(error: E)
}
