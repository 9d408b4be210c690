/** An optional value: Python's `None` or something. */
module Wrappers {
  datatype Option<T> = None | Some(value: T)
}
