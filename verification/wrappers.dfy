/** An optional value: the engine's result when no emission rule matched is absent. */
module Wrappers {

  datatype Option<+T> = None | Some(value: T)
}
