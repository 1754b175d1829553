/** The optional value used where the source returns a pointer or a value with a flag. */
module Wrappers {
  datatype Option<+T> = None | Some(value: T)
}
