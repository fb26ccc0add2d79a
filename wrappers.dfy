/** Optional values, used where the program raises instead of returning a value. */
module Wrappers {

  datatype Option<+T> = None | Some(value: T)
}
