/** Optional values: a lookup that may fail, a cell that may be empty. */
module Wrappers {
  datatype Option<+T> = None | Some(value: T)
}
