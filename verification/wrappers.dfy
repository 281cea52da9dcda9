/** The optional value used for "no match", "no verdict" and Python's `None`. */
module Wrappers {

  datatype Option<+T> = None | Some(value: T)
}
