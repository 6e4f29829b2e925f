/** Optional values and results with an error, used for the source's
    "not found" positions and for the exceptions a constructor can throw. */
module Wrappers {

  datatype Option<+T> = None | Some(value: T)

  datatype Result<+R, +E> = Success(value: R) | Failure(error: E)
}
