/** Optional values: Kotlin's nullable `T?` results. */
module Wrappers {
  datatype Option<+T> = None | Some(value: T)
}
