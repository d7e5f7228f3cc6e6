/** The optional value used wherever the engine answers "nothing here". */
module Wrappers {

  datatype Option<+T> = None | Some(value: T)
}
