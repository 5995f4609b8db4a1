/** Optional values, used for JavaScript's `null` and `undefined` and Rust's `Option`. */
module Wrappers {
  datatype Option<+T> = None | Some(value: T)
}
