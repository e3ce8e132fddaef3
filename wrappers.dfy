/** The optional value used where the detector's scan signals "not found". */
module Wrappers {

  datatype Option<+T> = None | Some(value: T)
}
