/** The optional value used wherever the summarizer looks a key up that may be absent. */
module Wrappers {
  datatype Option<+T> = None | Some(value: T)
}
