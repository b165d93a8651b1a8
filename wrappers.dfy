/** The optional value used for missing query parameters and missing rows. */
module Wrappers {

  datatype Option<+T> = None | Some(value: T)
}
