/** The optional value used for the texture-coordinate and normal channels of a corner. */
module Wrappers {
  datatype Option<+T> = None | Some(value: T)
}
