/**
 * `verifyToken(res, authHeader)`, the bearer check every protected handler
 * starts with, and what its callers end up writing.
 *
 * Without a `Bearer ` header it writes 403 and RETURNS; the caller goes on
 * with its own work, so that work still runs (its queries included) and its
 * own reply then throws because the 403 is already out.
 */
module RequestVerifier {
  import opened Wrappers
  import opened Strings
  import opened Json
  import opened Express
  import opened ErrorHandlers
  import opened Jwt

  /** The authentication scheme of section 2.1 of RFC 6750, with its separating space. */
  const BearerPrefix := "Bearer "

  const TokenRequired: Json := Obj1("error", "Token is required")

  const InvalidToken: Json := Obj1("error", "Invalid token")

  /** The header passes `!authHeader || !authHeader.startsWith('Bearer ')`. */
  predicate HasBearer(header: Option<string>) {
    header.Some? && header.value != "" && StartsWith(header.value, BearerPrefix)
  }

  /** `authHeader.split(' ')[1]`: what follows `Bearer ` up to the next space. */
  function BearerToken(header: string): (token: string)
    requires StartsWith(header, BearerPrefix)
    ensures token == TakeUntil(header[|BearerPrefix|..], ' ')
    ensures ' ' !in token
  {
    BearerFields(header);
    Split(header, ' ')[1]
  }

  lemma BearerFields(header: string)
    requires StartsWith(header, BearerPrefix)
    ensures |Split(header, ' ')| >= 2
    ensures Split(header, ' ')[1] == TakeUntil(header[|BearerPrefix|..], ' ')
  {
    var rest := header[|BearerPrefix|..];
    assert header == "Bearer" + [' '] + rest;
    SplitAfterSeparator("Bearer", ' ', rest);
    SplitFirstPiece(rest, ' ');
  }

  /** The header the client builds for a token, `Bearer <token>`. */
  function BearerHeader(token: string): (header: string)
    ensures StartsWith(header, BearerPrefix)
  {
    BearerPrefix + token
  }

  /**
   * Round trip: the server reads back exactly the token the client put in
   * the header if and only if the token contains no space.
   */
  lemma {:induction false} BearerRoundTrip(token: string)
    ensures HasBearer(Some(BearerHeader(token)))
    ensures BearerToken(BearerHeader(token)) == token <==> ' ' !in token
  {
    var header := BearerHeader(token);
    assert header[|BearerPrefix|..] == token;
    TakeUntilWhole(token, ' ');
  }

  /** The error `jwt.verify` throws, if any. */
  function VerifyError(v: Verification): (e: Option<Exception>)
    ensures e.None? <==> v == Valid
    ensures v == Invalid ==> e == Some(JwtError)
  {
    match v
    case Valid => None
    case Invalid => Some(JwtError)
    case Broken => Some(Uncoded)
  }

  /** With a bearer header, the error verification of its token throws, if any. */
  function TokenError(header: Option<string>, verify: string -> Verification): Option<Exception>
    requires HasBearer(header)
  {
    VerifyError(verify(BearerToken(header.value)))
  }

  /** `verifyToken(res, header)`: writes 403 and returns, or verifies the token (throwing on failure). */
  method VerifyToken(res: Response, header: Option<string>, verify: string -> Verification)
    returns (thrown: Option<Exception>)
    modifies res
    ensures res.cookies == old(res.cookies)
    ensures !HasBearer(header) ==> res.attempts == old(res.attempts) + [Reply(403, TokenRequired)]
    ensures !HasBearer(header) ==> thrown == if old(res.attempts) == [] then None else Some(HeadersSent)
    ensures HasBearer(header) ==> res.attempts == old(res.attempts) && thrown == TokenError(header, verify)
  {
    if header.None? || header.value == "" || !StartsWith(header.value, BearerPrefix) {
      thrown := res.Json(403, TokenRequired);
      return;
    }
    thrown := VerifyError(verify(BearerToken(header.value)));
  }

  // ---------------------------------------------------------------------
  // The shape every protected handler shares:
  //   try { verifyToken(res, header); <work> } catch (err) { <catch> }

  /** How a handler's own work ends: writing a reply, or throwing to its catch block. */
  datatype Finish = Wrote(reply: Reply) | Threw(error: Exception)

  /** The replies a handler attempts and the error that escapes it, if any. */
  datatype Outcome = Outcome(replies: seq<Reply>, escaped: Option<Exception>)

  /** The catch block of autoLogin, fetchRecord and searchRecord. */
  function CatchPlain(e: Exception): (r: Reply)
    ensures r.status == (if e == JwtError then 401 else 500)
  {
    if e == JwtError then Reply(401, InvalidToken) else Reply(500, InternalServerError)
  }

  /** The catch block of createRecord and updateRecord, which also maps a unique violation. */
  function CatchUnique(e: Exception): (r: Reply)
    ensures r.status == (if e == JwtError then 401 else if e == Coded("23505") then 409 else 500)
  {
    if e == JwtError then Reply(401, InvalidToken)
    else if e.Coded? && e.code == "23505" then Reply(409, Obj1("error", "Record with this ISIN already exists"))
    else Reply(500, InternalServerError)
  }

  /** The handler's own work runs: the header was missing or malformed (403 then continue), or its token verified. */
  predicate WorkRuns(header: Option<string>, verify: string -> Verification) {
    !HasBearer(header) || TokenError(header, verify).None?
  }

  /**
   * The decision table of a protected handler on a fresh response, given how
   * its work would end and its catch block `handler`:
   *   - no bearer header: 403 goes out, the work still runs, and whatever it
   *     then writes throws; the catch block's write throws again and escapes;
   *   - a token that verifies: the work's own reply;
   *   - a token that does not: the catch block's reply for the verification error.
   */
  function Guarded(header: Option<string>, verify: string -> Verification, work: Finish,
                   handler: Exception -> Reply): (o: Outcome)
    ensures |o.replies| >= 1
    ensures !HasBearer(header) ==> o.replies[0] == Reply(403, TokenRequired) && o.escaped == Some(HeadersSent)
    ensures HasBearer(header) ==> o.escaped == None && |o.replies| == 1
    ensures HasBearer(header) && TokenError(header, verify).Some? ==>
      o.replies == [handler(TokenError(header, verify).value)]
    ensures HasBearer(header) && TokenError(header, verify).None? ==>
      o.replies == [if work.Wrote? then work.reply else handler(work.error)]
    ensures !HasBearer(header) && work.Wrote? ==> o.replies[1..] == [work.reply, handler(HeadersSent)]
    ensures !HasBearer(header) && work.Threw? ==> o.replies[1..] == [handler(work.error)]
  {
    if !HasBearer(header) then
      Outcome([Reply(403, TokenRequired)] + (match work
                                             case Wrote(r) => [r, handler(HeadersSent)]
                                             case Threw(e) => [handler(e)]),
              Some(HeadersSent))
    else
      match TokenError(header, verify)
      case None => Outcome([match work case Wrote(r) => r case Threw(e) => handler(e)], None)
      case Some(e) => Outcome([handler(e)], None)
  }

  /** The catch block `if (err instanceof JsonWebTokenError) 401; else handleError` of autoLogin, fetchRecord, searchRecord. */
  method CatchPlainBlock(res: Response, err: Exception) returns (escaped: Option<Exception>)
    modifies res
    ensures res.attempts == old(res.attempts) + [CatchPlain(err)] && res.cookies == old(res.cookies)
    ensures escaped == if old(res.attempts) == [] then None else Some(HeadersSent)
  {
    if err == JwtError {
      escaped := res.Json(401, InvalidToken);
      return;
    }
    escaped := HandleError(err, res);
  }

  /** The catch block of createRecord and updateRecord: 401, then 409 for SQLSTATE 23505, else handleError. */
  method CatchUniqueBlock(res: Response, err: Exception) returns (escaped: Option<Exception>)
    modifies res
    ensures res.attempts == old(res.attempts) + [CatchUnique(err)] && res.cookies == old(res.cookies)
    ensures escaped == if old(res.attempts) == [] then None else Some(HeadersSent)
  {
    if err == JwtError {
      escaped := res.Json(401, InvalidToken);
      return;
    }
    if err.Coded? && err.code == "23505" {
      escaped := res.Json(409, Obj1("error", "Record with this ISIN already exists"));
      return;
    }
    escaped := HandleError(err, res);
  }
}
