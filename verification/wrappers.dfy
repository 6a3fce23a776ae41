/** Optional values, used for JavaScript's `undefined`/`null` and for
    "no task in flight". */
module Wrappers {

  datatype Option<+T> = None | Some(value: T)
}
