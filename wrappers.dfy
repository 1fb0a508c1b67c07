/** Option, standing in for Go's nil pointers and nil interface results. */
module Wrappers {
  datatype Option<+T> = None | Some(value: T)
}
