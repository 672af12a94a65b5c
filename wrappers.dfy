/** Optional values and success/failure results, used wherever the source has
    `null`/`undefined`, or throws an error that a caller turns into a response. */
module Wrappers {

  datatype Option<+T> = None | Some(value: T)

  datatype Result<+T, +E> = Success(value: T) | Failure(error: E)
}
