/** Optional values and success/failure results, used where the modelled code
    returns null, throws, or yields "undefined". */
module Wrappers {

  datatype Option<+T> = None | Some(value: T)

  datatype Result<+R, +E> = Success(value: R) | Failure(error: E)
}
