/**
 * The client's session check and login request. The token lives in the
 * `authToken` cookie; `isAuthenticated` asks the server only when there is one.
 */
module AuthService {
  import opened Wrappers
  import opened Json
  import opened HttpClient
  import opened Browser

  const AuthEndpoint := "http://localhost:3000/authenticate/auth"

  const AutoLoginEndpoint := "http://localhost:3000/authenticate/autoLogin"

  const TokenKey := "authToken"

  /** `authenticate(key)`: POST `{key}` with credentials, so that the reply's cookie is stored. */
  function Authenticate(key: string): (r: HttpRequest)
    ensures r.verb == Post && r.url == AuthEndpoint && r.withCredentials
    ensures r.body == Some(JObj(map["key" := JStr(key)])) && r.authorization == None
  {
    HttpRequest(Post, AuthEndpoint, Some(JObj(map["key" := JStr(key)])), None, true)
  }

  /** The request `isAuthenticated` issues for a cookie value: none at all when it is empty. */
  function AutoLoginCall(token: string): (r: Option<HttpRequest>)
    ensures r.None? <==> token == ""
    ensures r.Some? ==> r.value.verb == Get && r.value.url == AutoLoginEndpoint && r.value.withCredentials
    ensures r.Some? ==> r.value.authorization == Some("Bearer " + token) && r.value.body == None
  {
    if token == "" then None
    else Some(HttpRequest(Get, AutoLoginEndpoint, None, Some("Bearer " + token), true))
  }

  /** `map(response => response.message === 'Token is valid')` with `catchError(() => of(false))`. */
  predicate Confirms(reply: HttpResult) {
    reply.Success? && Member(reply.body, "message") == Some(JStr("Token is valid"))
  }

  /**
   * `isAuthenticated()` for the cookie value `token`, with `server` answering
   * the request: false without a token, whatever the server would say;
   * otherwise true exactly when the server confirms the token.
   */
  function IsAuthenticated(token: string, server: HttpRequest -> HttpResult): (ok: bool)
    ensures token == "" ==> !ok
    ensures token != "" ==> (ok <==> Confirms(server(AutoLoginCall(token).value)))
  {
    match AutoLoginCall(token)
    case None => false
    case Some(request) => Confirms(server(request))
  }

  class AuthService {
    const cookies: CookieJar
    const router: Router

    constructor (cookies: CookieJar, router: Router)
      ensures this.cookies == cookies && this.router == router
    {
      this.cookies, this.router := cookies, router;
    }

    /** `isAuthenticated()` on the current cookies. */
    function Authenticated(server: HttpRequest -> HttpResult): (ok: bool)
      reads this, cookies
      ensures TokenKey !in cookies.cookies ==> !ok
    {
      IsAuthenticated(cookies.Get(TokenKey), server)
    }

    /** `logout()`: deletes exactly the token cookie, then navigates to the login view. */
    method Logout()
      modifies cookies, router
      ensures cookies.cookies == old(cookies.cookies) - {TokenKey}
      ensures router.navigations == old(router.navigations) + [["/login"]]
    {
      cookies.Delete(TokenKey);
      router.Navigate(["/login"]);
    }
  }
}
