/** Small helper datatypes shared by the other modules. */
module Wrappers {

  /** A value that may be absent: a nullable column, a missing request
      parameter, or JavaScript's `null`. */
  datatype Option<+T> = None | Some(value: T)
}
