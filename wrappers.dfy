/** Optional values, standing in for the NULL returns of the C code. */
module Wrappers {
  datatype Option<+T> = None | Some(value: T)
}
