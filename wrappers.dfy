/** The optional value used wherever the application tests for "is it there". */
module Wrappers {
  datatype Option<+T> = None | Some(value: T)
}
