/** The replies a handler sends: a JSON success body with status 200, or an error body with
    its status code. */
module Http {
  import opened Wrappers

  /** An error body. `flagged` says whether it carries `success: false`; `details` is the
      upstream error text, present only under the development flag. */
  datatype Failure = Failure(status: nat, flagged: bool, error: string, message: Option<string>, details: Option<string>)

  datatype Reply<+T> = Success(data: T) | Fail(failure: Failure) {
    function Status(): nat {
      if Success? then 200 else failure.status
    }
  }

  /** A 400 reply for a request that fails validation. */
  function BadRequest(error: string, message: string): Failure {
    Failure(400, false, error, Some(message), None)
  }

  /** `process.env.NODE_ENV === 'development' ? error.message : undefined`. */
  function DevDetails(dev: bool, message: string): Option<string> {
    if dev then Some(message) else None
  }
}
