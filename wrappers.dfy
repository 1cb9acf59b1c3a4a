/** The optional value, `None` for a missing result or a raised error. */
module Wrappers {

  datatype Option<+T> = None | Some(value: T)
}
