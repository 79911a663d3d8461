/** Optional values, used where the service either produces something or not. */
module Wrappers {

  datatype Option<+T> = None | Some(value: T)
}
