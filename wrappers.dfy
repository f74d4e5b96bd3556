/** Optional values: a JavaScript `undefined`/`null` or a value that is present. */
module Wrappers {

  datatype Option<T> = None | Some(value: T)

}
