/** Value types shared by the build script model and the desktop shell model. */
module Common {

  datatype Option<+T> = None | Some(value: T)

  /** A Rust `Result<T, String>` (or a boxed error rendered with `to_string`): an error carries its message. */
  datatype Result<+T> = Ok(value: T) | Err(msg: string)

  /**
   * What one `reqwest::get` call gives back: either the request itself failed
   * (connection refused, timeout, DNS failure) or a response arrived with some
   * HTTP status code, whatever that code is.
   */
  datatype HttpOutcome = RequestFailed(error: string) | Responded(status: nat)
}
