/** Optional values: a JavaScript `undefined`/absent field, or a value. */
module Wrappers {

  datatype Option<+T> = None | Some(value: T)
}
