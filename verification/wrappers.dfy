/** The optional-value type shared by the other modules. */
module Wrappers {

  /** A value that may be absent: JavaScript's `undefined` in the modelled code. */
  datatype Option<+T> = None | Some(value: T)
}
