/** The optional value that several modules return. */
module Wrappers {
  datatype Option<T> = None | Some(value: T)
}
