/** Optional values, standing for Rust's `Option` in the model. */
module Wrappers {

  datatype Option<+T> = None | Some(value: T)
}
