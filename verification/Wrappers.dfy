/** The optional value that stands for `None` or a missing key. */
module Wrappers {

  datatype Option<+T> = None | Some(value: T)
}
