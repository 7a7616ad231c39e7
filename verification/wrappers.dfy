/** The optional-value datatype used for inputs that may be absent. */
module Wrappers {

  datatype Option<+T> = None | Some(value: T)
}
