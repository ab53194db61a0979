/** The optional value used where the source holds `null` or `undefined`. */
module Wrappers {
  datatype Option<+T> = None | Some(value: T)
}
