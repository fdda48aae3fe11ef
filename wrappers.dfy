/** The optional value used for JavaScript's `null`-or-value: a saved preference, a selection. */
module Wrappers {

  datatype Option<+T> = None | Some(value: T)
}
