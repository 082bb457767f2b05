/** Optional values and success/failure results, used wherever the Go code
    returns a value together with `ok` or `err`. */
module Wrappers {

  datatype Option<+T> = None | Some(value: T)

  datatype Result<+T, +E> = Success(value: T) | Failure(error: E)
}
