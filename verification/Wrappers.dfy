/** Optional values, as the standard library of the gateway's language has them. */
module Wrappers {
  datatype Option<+T> = None | Some(value: T)
}
