/**
 * The client and the server together: the Angular services' requests fed to
 * the Express handlers, and the delivered reply handed back to the client.
 */
module Session {
  import opened Wrappers
  import opened Strings
  import opened Json
  import opened Express
  import opened Jwt
  import opened Postgres
  import opened RequestVerifier
  import opened AutoLogin
  import opened AuthController
  import opened CreateController
  import opened HttpClient
  import opened AuthService
  import opened RecordForms
  import opened CompanyRecordsService
  import opened ErrorHandlers
  import LoginComponent

  /** The JSON body Express parses for a request, `{}` when none was sent. */
  function BodyOf(r: HttpRequest): Json {
    if r.body.Some? then r.body.value else JObj(map[])
  }

  /** The auto-login endpoint as the client sees it. */
  function AutoLoginServer(verify: string -> Verification): HttpRequest -> HttpResult {
    (r: HttpRequest) => Received(DeliveredOf(AutoLoginOutcome(Request(r.authorization, BodyOf(r)), verify).replies))
  }

  /** The login endpoint as the client sees it. */
  function AuthServer(connect: Option<Exception>, db: Query -> DbResult, sign: map<string, Json> -> Signing, nowMs: int)
    : HttpRequest -> HttpResult
  {
    (r: HttpRequest) => Received(DeliveredOf(AuthOutcome(BodyOf(r), connect, db, sign, nowMs).replies))
  }

  /**
   * The session check end to end: the client reports a session exactly when
   * it has a token and the server verifies the part of it before any space
   * (all of it, for a token with no space).
   */
  lemma SessionCheckEndToEnd(token: string, verify: string -> Verification)
    ensures IsAuthenticated(token, AutoLoginServer(verify)) <==> token != "" && verify(TakeUntil(token, ' ')) == Valid
  {
    if token != "" {
      var request := AutoLoginCall(token).value;
      var header := "Bearer " + token;
      assert request.authorization == Some(header);
      assert header[|BearerPrefix|..] == token;
      assert HasBearer(Some(header));
      var outcome := AutoLoginOutcome(Request(request.authorization, BodyOf(request)), verify);
      assert BearerToken(header) == TakeUntil(token, ' ');
      assert Member(TokenIsValid, "message") == Some(JStr("Token is valid"));
      match verify(TakeUntil(token, ' '))
      case Valid =>
        assert outcome.replies == [Reply(200, TokenIsValid)];
      case Invalid =>
        assert outcome.replies == [Reply(401, InvalidToken)];
      case Broken =>
        assert outcome.replies == [Reply(500, InternalServerError)];
    }
  }

  /** A token without spaces is accepted exactly when the server verifies it as a whole. */
  lemma SessionCheckWholeToken(token: string, verify: string -> Verification)
    requires ' ' !in token
    ensures IsAuthenticated(token, AutoLoginServer(verify)) <==> token != "" && verify(token) == Valid
  {
    SessionCheckEndToEnd(token, verify);
    TakeUntilWhole(token, ' ');
  }

  /** The header the record service sends passes the verifier and hands it the token, when the token has no space. */
  lemma RecordHeaderVerifies(token: string)
    requires token != "" && ' ' !in token
    ensures AuthHeader(token).Ok? && HasBearer(Some(AuthHeader(token).value))
    ensures BearerToken(AuthHeader(token).value) == token
  {
    assert AuthHeader(token).value == BearerHeader(token);
    BearerRoundTrip(token);
  }

  /**
   * Logging in end to end: for a passcode that finds a user and a token that
   * signs, the client receives exactly the user's name as the server read it,
   * in a body the login view accepts.
   */
  lemma LoginEndToEnd(passcode: string, db: Query -> DbResult, sign: map<string, Json> -> Signing, nowMs: int,
                      user: Json)
    requires passcode != ""
    requires db(LookupQuery(JStr(passcode))).Rows? && |db(LookupQuery(JStr(passcode))).rows| > 0
    requires db(LookupQuery(JStr(passcode))).rows[0] == user
    requires sign(SignedClaims(Payload(user), nowMs)).Signed?
    ensures AuthServer(None, db, sign, nowMs)(Authenticate(passcode)) == Success(NameBody(user))
    ensures LoginComponent.LoginAccepted(AuthServer(None, db, sign, nowMs)(Authenticate(passcode)))
    ensures Member(user, "name").Some? ==>
      JsString(Member(AuthServer(None, db, sign, nowMs)(Authenticate(passcode)).body, "name")) == JsString(Member(user, "name"))
  {
    var body := BodyOf(Authenticate(passcode));
    assert Member(body, "key") == Some(JStr(passcode));
    assert KeyWellFormed(body);
    var t := AuthOutcome(body, None, db, sign, nowMs);
    assert t.replies == [Reply(200, NameBody(user))];
  }

  /** A passcode that finds no user is refused, and the client sees a failure with status 401. */
  lemma UnknownPasscodeRefused(passcode: string, db: Query -> DbResult, sign: map<string, Json> -> Signing, nowMs: int)
    requires passcode != "" && db(LookupQuery(JStr(passcode))) == Rows([])
    ensures AuthServer(None, db, sign, nowMs)(Authenticate(passcode)) == Failure(401)
  {
    var body := BodyOf(Authenticate(passcode));
    assert Member(body, "key") == Some(JStr(passcode));
    var t := AuthOutcome(body, None, db, sign, nowMs);
    assert t.replies[0].status == 401;
  }

  /** The six empty boxes submit the empty passcode, which the server rejects as malformed without a lookup. */
  lemma EmptyPasscodeRejected(connect: Option<Exception>, db: Query -> DbResult, sign: map<string, Json> -> Signing, nowMs: int)
    ensures AuthServer(connect, db, sign, nowMs)(Authenticate("")) == Failure(400)
  {
    var body := BodyOf(Authenticate(""));
    assert Member(body, "key") == Some(JStr(""));
    assert !KeyWellFormed(body);
  }

  /**
   * A create form the client accepts is never refused by the server's
   * required-field check, and its empty website is stored as null.
   */
  lemma ValidCreateFormAccepted(name: string, exchange: string, ticker: string, isin: string, website: string)
    requires FormValid(TextForm(CreateView, name, exchange, ticker, isin, website))
    ensures RequiredPresent(FormValue(TextForm(CreateView, name, exchange, ticker, isin, website)))
    ensures InsertQuery(FormValue(TextForm(CreateView, name, exchange, ticker, isin, website))).params ==
      [JStr(name), JStr(exchange), JStr(ticker), JStr(isin), if website == "" then JNull else JStr(website)]
  {
    TextFormValid(CreateView, name, exchange, ticker, isin, website);
  }
}
