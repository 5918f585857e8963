/** Optional values and results with an error, used for the optional keys of a
    stored document and for the request that fails with a missing key. */
module Wrappers {

  datatype Option<+T> = None | Some(value: T)

  datatype Result<+T, +E> = Ok(value: T) | Err(error: E)
}
