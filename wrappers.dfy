/** The optional value used wherever the source may get a NULL pointer back. */
module Wrappers {

  datatype Option<+T> = None | Some(value: T)
}
