/** The optional value used wherever the modelled code returns `None`/`null`
    or skips a step. */
module Wrappers {
  datatype Option<+T> = None | Some(value: T)
}
