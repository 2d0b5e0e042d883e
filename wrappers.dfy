/** Optional values, used where the builder either produces something or skips it. */
module Wrappers {

  datatype Option<+T> = None | Some(value: T)
}
