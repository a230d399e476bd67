/** The conventional Some/None datatype; None stands for a pandas NaN or for
    "no row was selected". */
module Wrappers {
  datatype Option<+T> = None | Some(value: T)
}
