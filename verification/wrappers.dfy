/** The optional value of a nullable cell (a pandas NaN) or a dict lookup that can miss. */
module Wrappers {
  datatype Option<+T> = None | Some(value: T)
}
