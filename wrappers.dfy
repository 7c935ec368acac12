/** The optional value used where the wheel either calls its callback or
    does nothing, and where a lookup may find nothing. */
module Wrappers {
  datatype Option<T> = None | Some(value: T)
}
