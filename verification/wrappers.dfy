/** Optional values: a path that may not exist, an element that may be absent. */
module Wrappers {

  datatype Option<+T> = None | Some(value: T)
}
