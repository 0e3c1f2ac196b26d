/** Option, for results that may be absent (a nil client, a failed parse). */
module Wrappers {

  datatype Option<+T> = None | Some(value: T)
}
