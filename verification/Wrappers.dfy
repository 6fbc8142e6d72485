/** Optional values, used for C and C++ pointers that may be null and for absent table entries. */
module Wrappers {
  datatype Option<+T> = None | Some(value: T)
}
