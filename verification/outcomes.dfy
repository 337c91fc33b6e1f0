/** Failure-carrying datatypes shared by the route handlers of the
    earthquake reporting server. */
module Outcomes {

  /** A parsed path parameter. `None` stands for the NaN that `parseInt`
      returns when the text does not start with a number. */
  datatype Option<+T> = None | Some(value: T)

  /** The outcome of one read query against the Earthquakes table. */
  datatype Query<+T> = Rows(rows: T) | SqlFailure

  /** What a route handler sends back: a rendered page, a 404 naming the
      missing value, or a 500 after a failed query. */
  datatype Response<+P> = Ok(page: P) | NotFound(message: string) | ServerError(message: string) {

    /** The HTTP status code the handler sets. */
    function Status(): int {
      match this
      case Ok(_) => 200
      case NotFound(_) => 404
      case ServerError(_) => 500
    }
  }

  /** The plain-text body of a 404: the handler's fixed prefix followed by
      the requested value exactly as it arrived. */
  function NotFoundMessage(prefix: string, value: string): (r: string)
    ensures prefix <= r && r[|prefix|..] == value
  {
    prefix + value
  }

  /** The plain-text body of every 500 response. */
  const SqlErrorMessage: string := "SQL Error"
}
