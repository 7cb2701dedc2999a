/** The optional value used for X requests that may fail (a colour allocation)
    and for parses that may reject their input. */
module Wrappers {

  datatype Option<+T> = None | Some(value: T)
}
