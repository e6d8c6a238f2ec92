/** The optional value used for JavaScript's `null` / `undefined` and for `NaN` results. */
module Wrappers {
  datatype Option<+T> = None | Some(value: T)
}
