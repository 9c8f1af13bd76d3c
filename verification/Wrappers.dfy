/** The absent-or-present value that the modules share. */
module Wrappers {
  datatype Option<+T> = None | Some(value: T)
}
