/** The transport's answers and how they become errors (src/Http.cpp). */
module Http {
  import opened Common

  /** A response, or the reason there is none. A wait requested by the server
      is in milliseconds. */
  datatype Response = Response(status: int, body: string, timedOut: bool, failed: bool, transient: bool, retryAfter: Option<nat>)

  /** The request reached the server and the server answered with this status. */
  predicate Answered(response: Response, status: int) {
    !response.failed && !response.timedOut && response.status == status
  }

  function CheckResponse(response: Response): Result<()> {
    if response.timedOut then Err(Timeout)
    else if response.failed then Err(Fatal)
    else if response.status == 401 || response.status == 403 then Err(PermissionDenied)
    else if response.status == 404 then Err(NotFound)
    else Require(response.status == 200, Fatal)
  }

  /** A failure that may go away by itself. */
  predicate Transient(response: Response) {
    if response.failed then response.transient
    else response.status in {429, 500, 502, 503, 504}
  }
}
