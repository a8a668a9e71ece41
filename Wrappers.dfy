/** The optional value used for lookups and for the steps the model leaves abstract. */
module Wrappers {

  datatype Option<+T> = None | Some(value: T)
}
