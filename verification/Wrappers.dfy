/** A value that may be missing: a failed clock, a null pointer, a deadline not yet known. */
module Wrappers {
  datatype Option<+T> = None | Some(value: T)
}
