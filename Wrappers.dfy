/** The optional value used wherever the source may find no row (`None`). */
module Wrappers {

  datatype Option<+T> = None | Some(value: T)
}
