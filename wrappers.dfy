/** The optional value used wherever the simulation answers "none". */
module Wrappers {
  datatype Option<+T> = None | Some(value: T)
}
