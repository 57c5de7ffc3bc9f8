/** The optional-value datatype used for nullable results (a tile lookup that
    may return null, a property that may be null or undefined). */
module Wrappers {
  datatype Option<+T> = None | Some(value: T)
}
