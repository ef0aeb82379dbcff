/** The optional value used wherever the source has an `x | undefined` field or a `find` result. */
module Wrappers {

  datatype Option<+T> = None | Some(value: T)
}
