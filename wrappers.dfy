/** Optional values and results with an error, as returned by the modelled operations. */
module Wrappers {

  /** java.util.Optional: a value that may be absent. */
  datatype Option<+T> = None | Some(value: T)

  /** The outcome of an operation that may throw. */
  datatype Result<+T, +R> = Ok(value: T) | Err(error: R)
}
