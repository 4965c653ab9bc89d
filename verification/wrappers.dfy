/** The optional-value datatype used across the model for Python's `None`. */
module Wrappers {

  /** Either no value (`None` in Python) or exactly one value. */
  datatype Option<+T> = None | Some(value: T)
}
