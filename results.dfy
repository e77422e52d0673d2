/**
 * The error kinds the readers and the reader registry raise, and the
 * optional/result wrappers used in place of Python's None and exceptions.
 */
module Results {

  /** The exceptions a caller can observe. */
  datatype Error =
    | TypeError                              // a reader name that is not a string
    | ValueError                             // a missing (None) stream or reader class
    | LibraryRequiredError(library: string)  // an optional parsing library is not installed

  /** Python's `None` or a value. */
  datatype Option<+T> = None | Some(value: T)

  /** A value, or the exception raised instead of returning one. */
  datatype Outcome<+T> = Ok(value: T) | Err(error: Error)
}
