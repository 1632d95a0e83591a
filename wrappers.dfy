/** The optional value used for the source's (value, error) pairs whose error carries no data. */
module Wrappers {

  datatype Option<+T> = None | Some(value: T)
}
