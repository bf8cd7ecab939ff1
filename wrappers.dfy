/** Optional values, for C's NULL pointers and Python's None. */
module Wrappers {

  datatype Option<+T> = None | Some(value: T)
}
