/** The optional value used wherever the mailer meets Python's `None`. */
module Wrappers {

  datatype Option<+T> = None | Some(value: T)
}
