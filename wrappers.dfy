/** Optional values: a Go result that may be missing (an error return, a nil match). */
module Wrappers {
  datatype Option<+T> = None | Some(value: T)
}
