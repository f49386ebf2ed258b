/** The optional-value datatype the parsers below return. */
module Wrappers {

  /** `Some(v)` when a value is present, `None` when it is not. */
  datatype Option<+T> = None | Some(value: T)
}
