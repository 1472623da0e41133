/** The optional value used for JavaScript fields that may be absent or `undefined`. */
module Wrappers {

  datatype Option<+T> = None | Some(value: T)
}
