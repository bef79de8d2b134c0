/** The optional value used for HTML elements and attributes that may be absent. */
module Wrappers {

  datatype Option<+T> = None | Some(value: T)
}
