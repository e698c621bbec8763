/** Optional values: Kotlin's nullable `T?`. */
module Wrappers {
  datatype Option<+T> = None | Some(value: T)
}
