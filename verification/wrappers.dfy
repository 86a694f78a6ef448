/** The optional-value datatype used for partial results throughout the model. */
module Wrappers {

  datatype Option<+T> = None | Some(value: T)
}
