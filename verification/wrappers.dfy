/** The optional-value type shared by every module of the model. */
module Wrappers {

  /** A value that may be absent: a null pointer, an unset handle, a missing op. */
  datatype Option<+T> = None | Some(value: T)
}
