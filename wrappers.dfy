/** The optional value used for the player's pending timer handle. */
module Wrappers {
  datatype Option<+T> = None | Some(value: T)
}
