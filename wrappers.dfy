/** Optional values and results with an error, used for JavaScript's
    `null` and for operations that refuse their input. */
module Wrappers {

  datatype Option<+T> = None | Some(value: T)

  datatype Result<+R, +E> = Ok(value: R) | Err(error: E)
}
