/** The conventional optional value: a JavaScript `null` (or a missing property) is `None`. */
module Wrappers {
  datatype Option<+T> = None | Some(value: T)
}
