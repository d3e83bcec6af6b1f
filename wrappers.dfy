/** The optional value used for a player's current move and for parsed input. */
module Wrappers {
  datatype Option<T> = None | Some(value: T)
}
