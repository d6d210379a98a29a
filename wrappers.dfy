/** The optional value used for a day whose download or decoding failed. */
module Wrappers {

  datatype Option<+T> = None | Some(value: T)
}
