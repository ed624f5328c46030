/** The optional values that the tables and messages of all services share. */
module Wrappers {

  datatype Option<T> = None | Some(value: T)
}
