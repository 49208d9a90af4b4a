/** Optional values: JavaScript's `undefined` and `NaN` results are `None`. */
module Wrappers {

  datatype Option<+T> = None | Some(value: T)
}
