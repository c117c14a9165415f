/** Optional values and the success-or-error results that stand for Python's
    `None` and for a raised `ValueError`. */
module Wrappers {

  datatype Option<+T> = None | Some(value: T)

  datatype Result<+T, +E> = Ok(value: T) | Err(error: E)
}
