/** Optional values, used where the modelled code works with a value that may be absent. */
module Wrappers {
  datatype Option<+T> = None | Some(value: T)
}
