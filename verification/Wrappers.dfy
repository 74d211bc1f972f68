/** The optional value, for fields that C leaves NULL. */
module Wrappers {
  datatype Option<+T> = None | Some(value: T)
}
