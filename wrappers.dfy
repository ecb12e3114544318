/** The optional value used wherever the player returns `None` for "nothing". */
module Wrappers {

  datatype Option<+T> = None | Some(value: T)
}
