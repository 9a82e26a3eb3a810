/** The optional value used in place of the source's nil pointers and ok-flags. */
module Wrappers {
  datatype Option<+T> = None | Some(value: T)
}
