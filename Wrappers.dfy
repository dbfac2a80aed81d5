/** Optional values, as Rust's `Option<T>` in the validator core. */
module Wrappers {

  datatype Option<+T> = None | Some(value: T)
}
