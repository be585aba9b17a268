/** Failure-carrying values shared by the history store and the image form. */
module Wrappers {

  /** A value that may be missing: the form's selected file, the shown result. */
  datatype Option<+T> = None | Some(value: T)

  /** Either a value or the error that the source would have thrown instead. */
  datatype Result<+T, +E> = Ok(value: T) | Err(error: E)
}
