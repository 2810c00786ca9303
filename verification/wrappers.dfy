/** The absent-value marker used where the resolver returns PHP `null`. */
module Wrappers {

  datatype Option<+T> = None | Some(value: T)
}
