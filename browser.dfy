/** The browser-side stores and the router the client services act on. */
module Browser {

  /** `sessionStorage`: string entries for the lifetime of the tab. */
  class SessionStorage {
    var items: map<string, string>

    constructor ()
      ensures items == map[]
    {
      items := map[];
    }
  }

  /** The cookies ngx-cookie-service reads and deletes. */
  class CookieJar {
    var cookies: map<string, string>

    constructor (initial: map<string, string>)
      ensures cookies == initial
    {
      cookies := initial;
    }

    /** `cookieService.get(name)`: the value, or the empty string when there is no such cookie. */
    function Get(name: string): (v: string)
      reads this
      ensures name in cookies ==> v == cookies[name]
      ensures name !in cookies ==> v == ""
    {
      if name in cookies then cookies[name] else ""
    }

    /** `cookieService.delete(name)`. */
    method Delete(name: string)
      modifies this
      ensures cookies == old(cookies) - {name}
    {
      cookies := cookies - {name};
    }
  }

  /** Angular's router: the navigations requested, in order. */
  class Router {
    var navigations: seq<seq<string>>

    constructor ()
      ensures navigations == []
    {
      navigations := [];
    }

    /** `router.navigate(commands)`. */
    method Navigate(commands: seq<string>)
      modifies this
      ensures navigations == old(navigations) + [commands]
    {
      navigations := navigations + [commands];
    }
  }
}
