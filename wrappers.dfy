/** Optional values: JavaScript's `null` / `undefined` and a regex that did not match. */
module Wrappers {

  datatype Option<+T> = None | Some(value: T)
}
