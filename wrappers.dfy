/** Optional values and results with an error, the shapes Go spells as a
    nil-able pointer and as a `(value, error)` pair. */
module Wrappers {

  datatype Option<+T> = None | Some(value: T)

  datatype Result<+T, +E> = Ok(value: T) | Err(error: E)
}
