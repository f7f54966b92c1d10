/** The optional value used for every partial result of the model. */
module Wrappers {
  datatype Option<+T> = None | Some(value: T)
}
