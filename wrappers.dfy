/** The optional value used throughout the model for JavaScript's `undefined` (absent) versus present. */
module Wrappers {

  datatype Option<+T> = None | Some(value: T)
}
