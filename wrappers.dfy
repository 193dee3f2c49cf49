/** A value that may be missing: JavaScript's `undefined` and `NaN` outcomes. */
module Wrappers {

  datatype Option<T> = None | Some(value: T)

}
