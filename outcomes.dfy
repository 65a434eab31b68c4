/** Option and Result, used wherever the Python code returns None or raises. */
module Outcomes {

  datatype Option<+T> = None | Some(value: T)

  datatype Result<+T, +E> = Ok(value: T) | Err(error: E)

  /** What a Python method returning None does: finish, or raise. */
  datatype Outcome<+E> = Done | Raised(failure: E)

  /** The Python exceptions the modelled code raises, by meaning. */
  datatype Failure =
    | FileNotFound          // FileNotFoundError from os.path.exists
    | ExtensionMismatch     // ValueError: path does not end with .txt
    | InvalidEncoding       // ValueError: first 512 characters are not UTF-8
    | MalformedStatistics   // ValueError: result tuple of the wrong arity
    | MissingStatistics     // AttributeError: a result slot read before it was stored
    | EmptyInput            // ValueError / IndexError on an empty collection
    | DivisionByZero        // ZeroDivisionError
}
