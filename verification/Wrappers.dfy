/** The result of a lookup or a check that may find nothing. */
module Wrappers {
  datatype Option<T> = None | Some(value: T)
}
