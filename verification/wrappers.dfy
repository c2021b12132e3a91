/** Optional values, used for "maybe a relay write" and "maybe a decoded frame". */
module Wrappers {

  datatype Option<+T> = None | Some(value: T)
}
