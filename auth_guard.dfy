/**
 * The route guard of the dashboard. Lazy loading and activation ask the
 * same question, and every entry asks the server afresh: nothing is cached.
 */
module AuthGuard {
  import opened HttpClient
  import opened Browser
  import opened AuthService

  datatype Decision = Allow | Deny(redirect: seq<string>)

  /** The guard's decision for a session check's answer: allow, or deny and send to the login view. */
  function Decide(authenticated: bool): (d: Decision)
    ensures d.Allow? <==> authenticated
    ensures d.Deny? ==> d.redirect == ["/login"]
  {
    if authenticated then Allow else Deny(["/login"])
  }

  class AuthGuardService {
    const auth: AuthService
    const router: Router

    constructor (auth: AuthService, router: Router)
      ensures this.auth == auth && this.router == router
    {
      this.auth, this.router := auth, router;
    }

    /** `checkAuthentication()`: passes the session check through and navigates to `/login` once when it fails. */
    method CheckAuthentication(server: HttpRequest -> HttpResult) returns (allowed: bool)
      modifies router
      ensures allowed == auth.Authenticated(server)
      ensures allowed ==> router.navigations == old(router.navigations)
      ensures !allowed ==> router.navigations == old(router.navigations) + [["/login"]]
    {
      var decision := Decide(auth.Authenticated(server));
      match decision
      case Allow =>
        allowed := true;
      case Deny(redirect) =>
        router.Navigate(redirect);
        allowed := false;
    }

    /** `canLoad()`. */
    method CanLoad(server: HttpRequest -> HttpResult) returns (allowed: bool)
      modifies router
      ensures allowed == auth.Authenticated(server)
      ensures router.navigations == old(router.navigations) + (if allowed then [] else [["/login"]])
    {
      allowed := CheckAuthentication(server);
    }

    /** `canActivate()`. */
    method CanActivate(server: HttpRequest -> HttpResult) returns (allowed: bool)
      modifies router
      ensures allowed == auth.Authenticated(server)
      ensures router.navigations == old(router.navigations) + (if allowed then [] else [["/login"]])
    {
      allowed := CheckAuthentication(server);
    }
  }
}
