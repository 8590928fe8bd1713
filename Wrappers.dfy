/** Optional values, used where the source has a nullable pointer or a lookup that may miss. */
module Wrappers {
  datatype Option<+T> = None | Some(value: T)
}
