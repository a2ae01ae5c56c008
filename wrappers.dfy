/** The optional value used wherever the source yields `null`, `undefined` or an empty selection. */
module Wrappers {
  datatype Option<+T> = None | Some(value: T)
}
