/** The optional value used across the modules. */
module Wrappers {
  datatype Option<+T> = None | Some(value: T)
}
