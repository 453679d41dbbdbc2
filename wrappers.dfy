/** Optional values: a reply that may be missing, a path that may not resolve. */
module Wrappers {
  datatype Option<+T> = None | Some(value: T)
}
