/** Option for values the source represents as null, undefined or NaN. */
module Wrappers {
  datatype Option<+T> = None | Some(value: T)
}
