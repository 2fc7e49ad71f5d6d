/** The optional value used wherever the source returns `null`/`undefined` or reads a missing key. */
module Wrappers {

  datatype Option<+T> = None | Some(value: T)
}
