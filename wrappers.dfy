/** Optional values (Go's nil-able pointers) and results of operations that can fail. */
module Wrappers {

  /** `None` models a nil pointer, `Some(v)` a pointer to `v` compared by value. */
  datatype Option<+T> = None | Some(value: T)

  /** Success with a value, or failure with an error. */
  datatype Result<+T, +E> = Success(value: T) | Failure(error: E)
}
