/** Optional values and success/failure results, standing for JavaScript's
    `undefined`/`null` and for the error returns of the resolver. */
module Wrappers {

  datatype Option<+T> = None | Some(value: T)

  datatype Result<+R, +E> = Success(value: R) | Failure(error: E)
}
