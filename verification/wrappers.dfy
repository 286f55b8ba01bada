/** Optional values: the model's stand-in for `null` / `undefined`. */
module Wrappers {

  datatype Option<T> = None | Some(value: T)
}
