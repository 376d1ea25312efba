/** Optional values, used where the source has NULL, null or undefined. */
module Wrappers {
  datatype Option<+T> = None | Some(value: T)
}
