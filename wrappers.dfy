/** Optional values: JavaScript's `undefined`/`null` where the adapter distinguishes them. */
module Wrappers {
  datatype Option<+T> = None | Some(value: T)
}
