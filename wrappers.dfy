/** A message that may be missing, as the chat transport delivers it. */
module Wrappers {

  datatype Option<+T> = None | Some(value: T)
}
