/** Optional values and results with an error, used where the source returns
    `null`/`undefined`/`None` or raises. */
module Wrappers {

  datatype Option<+T> = None | Some(value: T)

  datatype Result<+R, +E> = Success(value: R) | Failure(error: E)
}
