/**
 * Angular's HttpClient as the client services use it: a request is a
 * value, and the server's answer comes back as an oracle result. A 2xx
 * reply is a success carrying its body; any other status, or a transport
 * failure (status 0), is an error.
 */
module HttpClient {
  import opened Wrappers
  import opened Json
  import opened Express

  datatype HttpMethod = Get | Post

  /** One request: method, URL, JSON body, `Authorization` header and `withCredentials`. */
  datatype HttpRequest = HttpRequest(verb: HttpMethod, url: string, body: Option<Json>,
                                     authorization: Option<string>, withCredentials: bool)

  datatype HttpResult = Success(body: Json) | Failure(status: int)

  /** The result the client sees for the reply the server delivered (none: the request never completes successfully). */
  function Received(delivered: Option<Reply>): (r: HttpResult)
    ensures r.Success? <==> delivered.Some? && 200 <= delivered.value.status < 300
    ensures r.Success? ==> r.body == delivered.value.body
  {
    match delivered
    case None => Failure(0)
    case Some(reply) => if 200 <= reply.status < 300 then Success(reply.body) else Failure(reply.status)
  }
}
