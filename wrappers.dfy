/** Optional values, standing for Python's `None` and for absent JSON fields. */
module Wrappers {
  datatype Option<T> = None | Some(value: T)
}
