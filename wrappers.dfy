/** The optional value used for cache slots that hold nothing yet and for
    calls into the simulation engine that can fail. */
module Wrappers {
  datatype Option<+T> = None | Some(value: T)
}
