/** Optional values, for nil pointers and "comma ok" results. */
module Wrappers {
  datatype Option<+T> = None | Some(value: T)
}
