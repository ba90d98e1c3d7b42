/** The optional-value datatype shared by the codec and the store. */
module Wrappers {

  datatype Option<+T> = None | Some(value: T)
}
