/** The optional value used wherever the game code returns or stores `null` or `undefined`. */
module Wrappers {
  datatype Option<+T> = None | Some(value: T)
}
