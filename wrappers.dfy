/** The Option datatype used to report whether a trap ended the system. */
module Wrappers {
  datatype Option<+T> = None | Some(value: T)
}
