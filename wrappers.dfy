/** Option stands in for a pointer result that may be NULL. */
module Wrappers {
  datatype Option<+T> = None | Some(value: T)
}
