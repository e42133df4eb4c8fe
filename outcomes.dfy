/** Outcomes of the operations of the parameter-search tool: a value or the
    exception the tool raises. */
module Outcomes {

  datatype Option<+T> = None | Some(value: T)

  /** The exceptions the search driver can raise. */
  datatype Error =
    | ParseFailure    // ValueError from int() on a string that is not a decimal number
    | MissingField    // IndexError from reading the second field of a `du` line
    | NoneComparison  // TypeError from comparing an int with None
    | EmptyTable      // ValueError from min() or max() over an empty dict

  datatype Result<+T> = Ok(value: T) | Fail(error: Error)
}
