/** The optional value used wherever the source returns a pair `(value, ok)` or a nil pointer. */
module Wrappers {
  datatype Option<+T> = None | Some(value: T)
}
