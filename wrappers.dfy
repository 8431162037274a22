/** The optional value used where app.py returns a value or `None`. */
module Wrappers {

  datatype Option<+T> = None | Some(value: T)
}
