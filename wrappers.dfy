/** Option and Result: the explicit "absent" and "error" values that the
    application signals with `None` and `(None, message)` pairs. */
module Wrappers {

  datatype Option<+T> = None | Some(value: T)

  datatype Result<+R, +E> = Success(value: R) | Failure(error: E)
}
