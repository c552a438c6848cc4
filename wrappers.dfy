/** Option and Result, plus the Python exceptions that can escape the modelled code. */
module Wrappers {

  datatype Option<+T> = None | Some(value: T)

  /** The exceptions the modelled Python functions let escape to their caller.
      Each one is named after the Python exception class it stands for. */
  datatype PyError =
    | TypeError       // iterating or slicing a value that is not a sequence
    | AttributeError  // calling `.get` on a value that is not a dict
    | OverflowError   // `date + timedelta` outside years 1..9999, or a year outside a C int
    | ValueError      // `date.replace(year=...)` with a C int year outside 1..9999, or naming a day that does not exist

  datatype Result<+T> = Ok(value: T) | Err(error: PyError)
}
