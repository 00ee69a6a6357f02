/** The optional value used where the session controller may or may not act. */
module Wrappers {

  datatype Option<+T> = None | Some(value: T)
}
