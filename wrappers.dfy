/** Small helper datatypes shared by the other modules. */
module Wrappers {

  /** A value that may be absent: Python's "attribute not set" or "no such key". */
  datatype Option<T> = None | Some(value: T)
}
