/** Optional values: a missing parent state, a null callback. */
module Wrappers {
  datatype Option<+T> = None | Some(value: T)
}
