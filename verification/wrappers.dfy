/** The optional value used for every "nothing came back" outcome. */
module Wrappers {

  datatype Option<+T> = None | Some(value: T)
}
