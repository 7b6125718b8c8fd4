/** The optional value used wherever the program falls back on a default
    (a failed lookup, a failed read, a failed query). */
module Wrappers {

  datatype Option<+T> = None | Some(value: T)
}
