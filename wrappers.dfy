/** Optional values, standing for Python's None and for absent entries. */
module Wrappers {
  datatype Option<+T> = None | Some(value: T)
}
