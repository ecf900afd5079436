/** A value that may be absent, for the source's `None` results and for raised errors without content. */
module Wrappers {
  datatype Option<+T> = None | Some(value: T)
}
