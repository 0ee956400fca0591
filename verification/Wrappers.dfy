/** The result of an operation that may give up, as a C function returning 0 or
    panicking would. */
module Wrappers {
  datatype Option<+T> = None | Some(value: T)
}
