/** The optional value used for JavaScript's `undefined` and for absent records. */
module Wrappers {
  datatype Option<+T> = None | Some(value: T)
}
