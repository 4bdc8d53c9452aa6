/** The optional value that stands for a nullable column or pointer. */
module Wrappers {
  datatype Option<+T> = None | Some(value: T)
}
