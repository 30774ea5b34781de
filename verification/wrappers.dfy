/** Rust's `Option`, used for optional fields and for lookups that may fail. */
module Wrappers {
  datatype Option<+T> = None | Some(value: T)
}
