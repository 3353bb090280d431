/** The optional value used wherever the script has a value or `None`. */
module Wrappers {

  datatype Option<+T> = None | Some(value: T)
}
