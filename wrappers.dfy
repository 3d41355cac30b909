/** The optional value used wherever the program has "nothing" (None in Python). */
module Wrappers {

  datatype Option<+T> = None | Some(value: T)
}
