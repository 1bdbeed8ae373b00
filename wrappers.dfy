/** The optional value the source returns as a number or as `None`. */
module Wrappers {
  datatype Option<+T> = None | Some(value: T)
}
