/** The optional value used wherever the source passes `null` (or `undefined`). */
module Wrappers {

  datatype Option<+T> = None | Some(value: T)
}
