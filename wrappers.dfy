/** Small value wrappers shared by the model. */
module Wrappers {

  /** A JavaScript value that may be missing: `null`, `undefined` or `NaN`. */
  datatype Option<+T> = None | Some(value: T) {
    function GetOr(default: T): T {
      match this
      case Some(v) => v
      case None => default
    }
  }
}

/** The backend's replies, as `callAPI` hands them to the client. */
module Api {

  /**
   * Every reply carries `success`; a failed one carries the message the
   * client shows. A transport failure reaches the client as a failed reply
   * whose message is `ConnectionError`.
   */
  datatype Reply<+T> = Success(data: T) | Fail(message: string)

  /** The message `callAPI` substitutes when the request itself fails. */
  const ConnectionError: string := "Errore di connessione"
}
