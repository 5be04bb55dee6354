/** The optional value used where the servlet works with a Java reference that may be null. */
module Wrappers {

  datatype Option<+T> = None | Some(value: T)
}
