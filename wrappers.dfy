/** Optional values, used wherever the source reads something that may be `undefined`. */
module Wrappers {

  datatype Option<+T> = None | Some(value: T)
}
