/** The optional value used for the relay's nullable references and for absent JSON fields. */
module Wrappers {

  datatype Option<+T> = None | Some(value: T)
}
