/** The optional value used for Python calls that either return or raise. */
module Wrappers {

  datatype Option<+T> = None | Some(value: T)
}
