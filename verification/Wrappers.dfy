/** The option type used wherever the programs test a returned value before using it. */
module Wrappers {
  datatype Option<+T> = None | Some(value: T)
}
