/** The optional value used wherever the source returns a null pointer, reports
    "not found" or throws an exception that the caller catches. */
module Wrappers {

  datatype Option<+T> = None | Some(value: T)

}
