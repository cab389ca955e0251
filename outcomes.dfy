/** Optional values, thrown values, results of remote calls, and how an
    asynchronous store operation completes. */
module Outcomes {

  datatype Option<T> = None | Some(value: T) {
    function GetOr(default: T): T {
      match this
      case Some(v) => v
      case None => default
    }
  }

  /** A value a JavaScript `throw` can carry: an `Error` object with its
      message, or anything else (a plain error record, a string, ...). */
  datatype Thrown = ErrorObject(message: string) | NonError

  /** `e instanceof Error ? e : new Error(fallback)`, reduced to the message
      of the resulting `Error`. */
  function ErrorMessage(e: Thrown, fallback: string): string {
    match e
    case ErrorObject(msg) => msg
    case NonError => fallback
  }

  /** The outcome of a call into the backend: its data, or what it threw
      (an `error` field in the response is thrown by the caller). */
  datatype Remote<T> = Ok(data: T) | Failed(reason: Thrown)

  /** How the promise returned by a store operation settles. */
  datatype Completion = Resolved | Rejected(reason: Thrown)
}
