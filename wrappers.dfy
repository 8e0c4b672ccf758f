/** Optional values (pandas NaN or a missing entry) and results that may carry a raised error. */
module Wrappers {

  datatype Option<+T> = None | Some(value: T)

  datatype Result<+R, +E> = Success(value: R) | Failure(error: E)
}
