/** Optional values and success-or-error results, used in place of Python's
    None and of the program's print-and-exit error paths. */
module Wrappers {

  datatype Option<+T> = None | Some(value: T)

  datatype Result<+T, +E> = Success(value: T) | Failure(error: E)
}
