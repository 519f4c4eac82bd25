/**
 * The parts of an Express request and response that the handlers use.
 * A response accepts one reply: once `res.status(..).json(..)` has sent
 * one, every later `json` or `cookie` call throws Node's
 * ERR_HTTP_HEADERS_SENT error instead of reaching the client.
 */
module Express {
  import opened Wrappers
  import opened Json

  /** One `res.status(status).json(body)` call. */
  datatype Reply = Reply(status: int, body: Json)

  /** The errors a handler's `catch` block can receive. */
  datatype Exception =
    | JwtError            // an instance of jsonwebtoken's JsonWebTokenError (TokenExpiredError included)
    | Coded(code: string) // an error with a `code` property: a PostgreSQL SQLSTATE or a Node error code
    | Uncoded             // any other error

  /** What `json` and `cookie` throw once the reply has gone out. */
  const HeadersSent: Exception := Coded("ERR_HTTP_HEADERS_SENT")

  datatype CookieOptions = CookieOptions(path: string, httpOnly: bool, secure: bool, sameSite: string, maxAge: int)

  datatype Cookie = Cookie(name: string, value: string, options: CookieOptions)

  /** `req`: the `authorization` header (`None` when absent) and the parsed JSON body. */
  datatype Request = Request(authorization: Option<string>, body: Json)

  /** The reply the client receives: the first one written, if any. */
  function DeliveredOf(attempts: seq<Reply>): (r: Option<Reply>)
    ensures r.Some? <==> attempts != []
    ensures r.Some? ==> r.value == attempts[0]
  {
    if attempts == [] then None else Some(attempts[0])
  }

  /** `res` for one request. */
  class Response {
    /** Every `status(..).json(..)` call made, in order; only the first reaches the client. */
    var attempts: seq<Reply>
    /** The cookies set before the reply went out. */
    var cookies: seq<Cookie>

    constructor ()
      ensures attempts == [] && cookies == []
    {
      attempts, cookies := [], [];
    }

    /** `res.status(status).json(body)`: sends the reply, or throws if one was sent already. */
    method Json(status: int, body: Json) returns (thrown: Option<Exception>)
      modifies this
      ensures attempts == old(attempts) + [Reply(status, body)]
      ensures cookies == old(cookies)
      ensures thrown == if old(attempts) == [] then None else Some(HeadersSent)
    {
      thrown := if attempts == [] then None else Some(HeadersSent);
      attempts := attempts + [Reply(status, body)];
    }

    /** `res.cookie(name, value, options)`: adds a Set-Cookie header, or throws if the reply was sent. */
    method Cookie(c: Cookie) returns (thrown: Option<Exception>)
      modifies this
      ensures attempts == old(attempts)
      ensures old(attempts) == [] ==> cookies == old(cookies) + [c] && thrown == None
      ensures old(attempts) != [] ==> cookies == old(cookies) && thrown == Some(HeadersSent)
    {
      if attempts == [] {
        cookies := cookies + [c];
        thrown := None;
      } else {
        thrown := Some(HeadersSent);
      }
    }
  }
}
