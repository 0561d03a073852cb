/** The Option datatype used for nullable table entries and optional XML fields. */
module Wrappers {

  datatype Option<+T> = None | Some(value: T)
}
