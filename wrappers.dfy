/** Rust's `Option`, as the multiplexer hands events to the two partitions. */
module Wrappers {
  datatype Option<+T> = None | Some(value: T)
}
