/** The optional value used for fields that may hold "nothing yet". */
module Wrappers {

  datatype Option<+T> = None | Some(value: T)
}
