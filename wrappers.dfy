/** Optional values and value-returned errors, used for the source's optional
    fields and for the errors it throws. */
module Wrappers {
  datatype Option<+T> = None | Some(value: T)

  datatype Result<+T, +E> = Ok(value: T) | Err(error: E)
}
