/** Optional values (Java's nullable references, Python's None) and
    success-or-failure results (Java's thrown exceptions). */
module Wrappers {

  datatype Option<+T> = None | Some(value: T)

  datatype Result<+R, +E> = Success(value: R) | Failure(error: E)
}
