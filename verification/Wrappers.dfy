/** The option type every component uses for a value that may be absent. */
module Wrappers {
  datatype Option<+T> = None | Some(value: T)
}
