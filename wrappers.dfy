/** The optional value used for fields that a level literal may omit. */
module Wrappers {
  datatype Option<+T> = None | Some(value: T)
}
