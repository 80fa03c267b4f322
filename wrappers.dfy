/** The optional value used wherever the script may get nothing back. */
module Wrappers {
  datatype Option<+T> = None | Some(value: T)
}
