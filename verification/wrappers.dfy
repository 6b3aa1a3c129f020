/** The two result shapes the core uses: an optional value (a JavaScript
    value that may be `undefined`) and a success-or-failure result. */
module Wrappers {

  datatype Option<+T> = None | Some(value: T)

  datatype Result<+R, +E> = Success(value: R) | Failure(error: E)
}
