/** Optional values and success-or-error results, used wherever the store's code
    raises an exception or reads a nullable column. */
module Wrappers {

  datatype Option<+T> = None | Some(value: T)

  datatype Result<+R, +E> = Success(value: R) | Failure(error: E)
}
