/** Optional values and error-carrying results, used for JavaScript's
    `undefined` and for the error responses of the route handlers. */
module Wrappers {

  datatype Option<+T> = None | Some(value: T)

  datatype Result<+T, +E> = Ok(value: T) | Err(error: E)
}
