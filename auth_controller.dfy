/**
 * `POST /authenticate/auth`: exchanges a passcode for a session token.
 * The token is signed over the user's id with a one-hour lifetime and goes
 * back only in the `authToken` cookie; the body carries the display name.
 */
module AuthController {
  import opened Wrappers
  import opened Json
  import opened Express
  import opened ErrorHandlers
  import opened Jwt
  import opened Postgres

  const InvalidKeyFormat: Json := Obj1("error", "Invalid key format")

  const UserNotFound: Json := Obj1("error", "User not found")

  /** `maxAge: 3600000`: one hour, in milliseconds (Max-Age, section 4.1.2.2 of RFC 6265, is sent in seconds). */
  const CookieMaxAge := 3600000

  /** The cookie settings of the session token. */
  const SessionCookie := CookieOptions("/", false, false, "lax", CookieMaxAge)

  /** `!key || typeof key !== 'string'` is false: the key is a non-empty string. */
  predicate KeyWellFormed(body: Json) {
    Truthy(Member(body, "key")) && Member(body, "key").value.JStr?
  }

  function LookupQuery(key: Json): Query {
    Query(SelectUser, [key])
  }

  /** The token payload `{ id: user.id }`: only the id, and nothing when the row has none. */
  function Payload(user: Json): (p: map<string, Json>)
    ensures p.Keys <= {"id"}
    ensures Member(user, "id").Some? ==> p == map["id" := Member(user, "id").value]
  {
    ObjOf([("id", Member(user, "id"))]).fields
  }

  /** The 200 body `{ name: user.name }`: only the display name. */
  function NameBody(user: Json): (b: Json)
    ensures b.JObj? && b.fields.Keys <= {"name"}
    ensures Member(user, "name").Some? ==> b == JObj(map["name" := Member(user, "name").value])
  {
    ObjOf([("name", Member(user, "name"))])
  }

  /** What `auth` does to the response and the database. */
  datatype AuthTrace = AuthTrace(replies: seq<Reply>, cookies: seq<Cookie>, queries: seq<Query>)

  /**
   * The decision table of `auth`, given the error `pool.connect()` throws
   * (if any), the database, the signer and the clock.
   */
  function AuthOutcome(body: Json, connect: Option<Exception>, db: Query -> DbResult,
                       sign: map<string, Json> -> Signing, nowMs: int): (t: AuthTrace)
    ensures |t.replies| == 1
    ensures !KeyWellFormed(body) ==> t == AuthTrace([Reply(400, InvalidKeyFormat)], [], [])
    ensures KeyWellFormed(body) && connect.Some? ==> t == AuthTrace([Reply(500, InternalServerError)], [], [])
    ensures KeyWellFormed(body) && connect.None? ==> t.queries == [LookupQuery(Member(body, "key").value)]
    ensures t.replies[0].status == 401 <==>
      KeyWellFormed(body) && connect.None? && db(LookupQuery(Member(body, "key").value)) == Rows([])
    ensures t.replies[0].status == 401 ==> t.replies[0].body == UserNotFound
    // a failing lookup or a failing signature is caught and answered with 500, after the lookup was sent
    ensures KeyWellFormed(body) && connect.None? && db(LookupQuery(Member(body, "key").value)).Failed? ==>
      t == AuthTrace([Reply(500, InternalServerError)], [], [LookupQuery(Member(body, "key").value)])
    ensures KeyWellFormed(body) && connect.None? && db(LookupQuery(Member(body, "key").value)).Rows? ==>
      var rows := db(LookupQuery(Member(body, "key").value)).rows;
      |rows| > 0 && sign(SignedClaims(Payload(rows[0]), nowMs)).SignFailed? ==>
        t == AuthTrace([Reply(500, InternalServerError)], [], [LookupQuery(Member(body, "key").value)])
    // a user found and a token signed: 200 with the name, and the session cookie
    ensures KeyWellFormed(body) && connect.None? && db(LookupQuery(Member(body, "key").value)).Rows? ==>
      var rows := db(LookupQuery(Member(body, "key").value)).rows;
      |rows| > 0 && sign(SignedClaims(Payload(rows[0]), nowMs)).Signed? ==>
        t == AuthTrace([Reply(200, NameBody(rows[0]))],
                       [Cookie("authToken", sign(SignedClaims(Payload(rows[0]), nowMs)).token, SessionCookie)],
                       [LookupQuery(Member(body, "key").value)])
    // the session cookie goes out exactly with a 200, holding the token signed over the first row's id
    ensures t.cookies != [] <==> t.replies[0].status == 200
    ensures t.cookies != [] ==> db(LookupQuery(Member(body, "key").value)).Rows?
    ensures t.cookies != [] ==>
      var rows := db(LookupQuery(Member(body, "key").value)).rows;
      |rows| > 0 && sign(SignedClaims(Payload(rows[0]), nowMs)).Signed? &&
      t.cookies == [Cookie("authToken", sign(SignedClaims(Payload(rows[0]), nowMs)).token, SessionCookie)] &&
      t.replies[0].body == NameBody(rows[0])
  {
    if !KeyWellFormed(body) then AuthTrace([Reply(400, InvalidKeyFormat)], [], [])
    else if connect.Some? then AuthTrace([Reply(500, InternalServerError)], [], [])
    else
      var q := LookupQuery(Member(body, "key").value);
      match db(q)
      case Failed(_) => AuthTrace([Reply(500, InternalServerError)], [], [q])
      case Rows(rows) =>
        if |rows| == 0 then AuthTrace([Reply(401, UserNotFound)], [], [q])
        else match sign(SignedClaims(Payload(rows[0]), nowMs))
          case SignFailed => AuthTrace([Reply(500, InternalServerError)], [], [q])
          case Signed(token) =>
            AuthTrace([Reply(200, NameBody(rows[0]))], [Cookie("authToken", token, SessionCookie)], [q])
  }

  /**
   * `auth(req, res)` on a fresh response. Every client taken from the pool is
   * given back, on success, on "not found" and when a query or signing throws.
   */
  method Auth(req: Request, res: Response, pool: Pool, connect: Option<Exception>, db: Query -> DbResult,
              sign: map<string, Json> -> Signing, nowMs: int)
    returns (escaped: Option<Exception>)
    requires res.attempts == [] && res.cookies == []
    modifies res, pool
    ensures res.attempts == AuthOutcome(req.body, connect, db, sign, nowMs).replies
    ensures res.cookies == AuthOutcome(req.body, connect, db, sign, nowMs).cookies
    ensures pool.issued == old(pool.issued) + AuthOutcome(req.body, connect, db, sign, nowMs).queries
    ensures pool.checkedOut == old(pool.checkedOut)
    ensures escaped == None
  {
    var key := Member(req.body, "key");
    if !Truthy(key) || !key.value.JStr? {
      escaped := res.Json(400, InvalidKeyFormat);
      return;
    }
    // try {
    var err := pool.Connect(connect);
    if err.None? {
      // try {
      var result := pool.Run(Query(SelectUser, [key.value]), db);
      if result.Failed? {
        err := Some(result.Error());
      } else if |result.rows| == 0 {
        err := res.Json(401, UserNotFound);
      } else {
        var user := result.rows[0];
        var signed := sign(SignedClaims(Payload(user), nowMs));
        if signed.SignFailed? {
          err := Some(Uncoded);
        } else {
          err := res.Cookie(Cookie("authToken", signed.token, SessionCookie));
          if err.None? {
            err := res.Json(200, NameBody(user));
          }
        }
      }
      // } finally {
      pool.Release();
      // }
    }
    // } catch (err) {
    if err.Some? {
      escaped := HandleError(err.value, res);
    } else {
      escaped := None;
    }
  }
}
