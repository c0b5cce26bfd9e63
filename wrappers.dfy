/** Presence or absence of a value: the packet tags that may or may not be attached. */
module Wrappers {

  datatype Option<+T> = None | Some(value: T)
}
