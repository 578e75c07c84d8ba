/** Optional values: a DOM lookup that may return null, a frame that may be absent. */
module Wrappers {
  datatype Option<+T> = None | Some(value: T)
}
