/** Optional values: Java's nullable references (a `Date`, a `String`, a `Float`). */
module Wrappers {
  datatype Option<+T> = None | Some(value: T)
}
