/** Optional values and success/failure results, used where the script
    tests a value for truthiness or throws an Error. */
module Wrappers {

  datatype Option<+T> = None | Some(value: T)

  datatype Result<+R, +E> = Success(value: R) | Failure(error: E)
}
