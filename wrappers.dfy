/** The optional value that stands for JavaScript's null/undefined and Python's missing key. */
module Wrappers {
  datatype Option<T> = None | Some(value: T)
}
