/** Optional values and fallible results, as the Rust code uses `Option` and `anyhow::Result`. */
module Wrappers {

  datatype Option<+T> = None | Some(value: T)

  /** An `anyhow::Result`: either a value or an error message. */
  datatype Result<+T> = Ok(value: T) | Err(error: string)
}
