/** The optional value that stands for Python's None and for a missing Redis key or field. */
module Wrappers {
  datatype Option<+T> = None | Some(value: T)
}
