/** The optional value used for "no target this frame". */
module Wrappers {
  datatype Option<+T> = None | Some(value: T)
}
