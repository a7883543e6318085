/** Optional values, for defaults and for answers that may be missing,
    and results that either hold a value or the error that was raised. */
module Wrappers {

  datatype Option<+T> = None | Some(value: T)

  datatype Result<+T, +E> = Ok(value: T) | Err(error: E)
}
