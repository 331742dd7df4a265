/** The usual optional-value datatype, used for JavaScript's null / undefined / NaN results. */
module Wrappers {
  datatype Option<+T> = None | Some(value: T)
}
