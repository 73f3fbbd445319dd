/** The optional value used for JavaScript's `undefined`/`null` results and for the holes of a sparse array. */
module Wrappers {
  datatype Option<+T> = None | Some(value: T)
}
