/** The optional value used wherever santorinai/board.py returns `None` or stores an unset coordinate. */
module Wrappers {
  datatype Option<+T> = None | Some(value: T)
}
