/** The optional-value type used for C calls that may produce nothing (fgets at end of file). */
module Wrappers {
  datatype Option<+T> = None | Some(value: T)
}
