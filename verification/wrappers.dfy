/** The optional-value datatype the rest of the model uses for partial inverses. */
module Wrappers {

  datatype Option<+T> = None | Some(value: T)
}
