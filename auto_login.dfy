/** `GET /authenticate/autoLogin`: tells the client whether its bearer token still verifies. */
module AutoLogin {
  import opened Wrappers
  import opened Json
  import opened Express
  import opened ErrorHandlers
  import opened Jwt
  import opened RequestVerifier

  const TokenIsValid: Json := Obj1("message", "Token is valid")

  /** What `autoLogin` writes and lets escape, for each header and verification result. */
  function AutoLoginOutcome(req: Request, verify: string -> Verification): (o: Outcome)
    ensures !HasBearer(req.authorization) ==>
      o.replies == [Reply(403, TokenRequired), Reply(200, TokenIsValid), Reply(500, InternalServerError)]
      && o.escaped == Some(HeadersSent)
    ensures HasBearer(req.authorization) ==> o.escaped == None && o.replies == [
      match verify(BearerToken(req.authorization.value))
      case Valid => Reply(200, TokenIsValid)
      case Invalid => Reply(401, InvalidToken)
      case Broken => Reply(500, InternalServerError)]
  {
    Guarded(req.authorization, verify, Wrote(Reply(200, TokenIsValid)), CatchPlain)
  }

  /** `autoLogin(req, res)` on a fresh response. */
  method AutoLogin(req: Request, res: Response, verify: string -> Verification)
    returns (escaped: Option<Exception>)
    requires res.attempts == [] && res.cookies == []
    modifies res
    ensures res.attempts == AutoLoginOutcome(req, verify).replies
    ensures escaped == AutoLoginOutcome(req, verify).escaped
    ensures res.cookies == []
  {
    var err := VerifyToken(res, req.authorization, verify);
    if err.None? {
      err := res.Json(200, TokenIsValid);
      if err.None? {
        return None;
      }
    }
    escaped := CatchPlainBlock(res, err.value);
  }
}
