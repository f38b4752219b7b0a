/** The optional-value datatype used throughout the model. */
module Wrappers {

  /** A value that may be absent: `undefined`/`null` in the host's objects. */
  datatype Option<+T> = None | Some(value: T)
}
