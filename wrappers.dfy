/** The optional value used for Python's `None` returns and for failed steps. */
module Wrappers {

  datatype Option<+T> = None | Some(value: T)
}
