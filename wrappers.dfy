/** The optional value used for board slots and for input that may fail to parse. */
module Wrappers {
  datatype Option<+T> = None | Some(value: T)
}
