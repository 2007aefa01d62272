/**
 * JavaScript-level values shared by both form components: optional
 * values, construction results, thrown errors and the outcome of the
 * user's asynchronous submit handler.
 */
module Common {

  /** A value that may be missing (`undefined` or any other falsy value). */
  datatype Option<T> = None | Some(value: T) {
    function GetOr(default: T): T {
      match this
      case Some(v) => v
      case None => default
    }
  }

  /** The result of constructing a component: the component, or the message of the thrown `Error`. */
  datatype Result<T> = Ok(value: T) | Err(message: string)

  /** A thrown JavaScript `Error` object; only its `message` is observable here. */
  datatype ErrorValue = ErrorValue(message: string)

  /** How the promise returned by the user's submit handler settles. */
  datatype Outcome = Resolved | Rejected(err: ErrorValue)
}
