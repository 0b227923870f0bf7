/** Optional values and error-or-value results, used for nullable columns,
    lookups that may miss and operations that may throw. */
module Wrappers {

  datatype Option<+T> = None | Some(value: T)

  datatype Result<+T, +E> = Ok(value: T) | Err(error: E)
}
