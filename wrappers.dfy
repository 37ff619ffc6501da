/** Small helper datatypes shared by the other modules. */
module Wrappers {

  /** A value that may be absent: the `None` of the source. */
  datatype Option<+T> = None | Some(value: T)
}
