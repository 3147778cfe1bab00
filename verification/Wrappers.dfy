/** The optional value that several parts of the model return. */
module Wrappers {
  datatype Option<+T> = None | Some(value: T)
}
