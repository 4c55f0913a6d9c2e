/** The optional value used for absent payloads and for parse results. */
module Wrappers {

  datatype Option<+T> = None | Some(value: T)
}
