/** Optional values and success/failure results, used wherever the source
    returns None, an empty value on a guard, or raises an exception. */
module Wrappers {

  datatype Option<+T> = None | Some(value: T)

  datatype Result<+R, +E> = Success(value: R) | Failure(error: E)
}
