/** The optional value used where the program returns None or leaves a variable unset. */
module Wrappers {
  datatype Option<+T> = None | Some(value: T)
}
