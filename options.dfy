/** Optional values and results with an error, as the pipeline's steps produce them. */
module Options {

  /** A value that may be absent: `undefined` from optional chaining (`?.`) in the source. */
  datatype Option<+T> = None | Some(value: T) {
    function GetOr(default: T): T {
      match this
      case Some(v) => v
      case None => default
    }
  }

  /** The kinds of exception the modelled code can raise on its own. */
  datatype Error =
    | TypeError   // a property read on `null`, such as `document.body.textContent` without a body

  /** A value, or the exception that replaced it. */
  datatype Result<+T> = Ok(value: T) | Err(error: Error)
}
