/** Optional values, used for the places where the program either has a value or not. */
module Wrappers {
  datatype Option<+T> = None | Some(value: T)
}
