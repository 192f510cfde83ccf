/** The PHP `null` of an optional argument, as a datatype. */
module Wrappers {

  datatype Option<+T> = None | Some(value: T)
}
