/** The server's two fallback writers. */
module ErrorHandlers {
  import opened Wrappers
  import opened Json
  import opened Express

  /** The body of every 500 reply: no detail of the error reaches the client. */
  const InternalServerError: Json := Obj1("error", "Internal server error")

  const NotFound: Json := Obj1("error", "Not found")

  /** `handleError(err, res)`: logs the error and replies 500, whatever the error. */
  method HandleError(err: Exception, res: Response) returns (thrown: Option<Exception>)
    modifies res
    ensures res.attempts == old(res.attempts) + [Reply(500, InternalServerError)]
    ensures res.cookies == old(res.cookies)
    ensures thrown == if old(res.attempts) == [] then None else Some(HeadersSent)
  {
    thrown := res.Json(500, InternalServerError);
  }

  /** `notFoundHandler(req, res)`: replies 404 to any request no route took. */
  method NotFoundHandler(req: Request, res: Response) returns (thrown: Option<Exception>)
    modifies res
    ensures res.attempts == old(res.attempts) + [Reply(404, NotFound)]
    ensures res.cookies == old(res.cookies)
    ensures thrown == if old(res.attempts) == [] then None else Some(HeadersSent)
  {
    thrown := res.Json(404, NotFound);
  }
}
