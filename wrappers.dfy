/** The optional value used for the id search and for parsed message fields. */
module Wrappers {
  datatype Option<+T> = None | Some(value: T)
}
