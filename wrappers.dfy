/** The optional value used for outcomes that may be absent (a frame that does not decode, a failed dial). */
module Wrappers {

  datatype Option<+T> = None | Some(value: T)
}
