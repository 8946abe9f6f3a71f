/** The optional value used for a dispense message that may be absent. */
module Wrappers {

  datatype Option<+T> = None | Some(value: T)
}
