/** Small option type shared by the modules of the relay model. */
module Wrappers {
  datatype Option<+T> = None | Some(value: T)
}
