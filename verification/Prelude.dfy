/** Optional values and outcomes of operations that may raise. */
module Prelude {
  datatype Option<+T> = None | Some(value: T)

  datatype Outcome<+T, +E> = Ok(value: T) | Raised(error: E)
}
