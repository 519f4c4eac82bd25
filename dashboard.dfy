/** The dashboard shell: greeting, view switch, search box and logout. */
module Dashboard {
  import opened Browser
  import opened AuthState
  import opened AuthService

  /** The greeting for an hour of the day (0 to 23) and a name. */
  function Greeting(hour: int, name: string): (g: string)
    ensures hour < 12 ==> g == "Morning, " + name
    ensures 12 <= hour < 18 ==> g == "Afternoon, " + name
    ensures 18 <= hour ==> g == "Evening, " + name
  {
    if hour < 12 then "Morning, " + name
    else if hour < 18 then "Afternoon, " + name
    else "Evening, " + name
  }

  class DashboardComponent {
    var currentView: string
    var searchValue: string
    const authService: AuthService
    const authState: AuthStateService

    constructor (authService: AuthService, authState: AuthStateService)
      ensures currentView == "search" && searchValue == ""
      ensures this.authService == authService && this.authState == authState
    {
      currentView, searchValue := "search", "";
      this.authService, this.authState := authService, authState;
    }

    /** `getGreetings()` at the local hour `hour` (the clock is a parameter). */
    function GetGreetings(hour: int): (g: string)
      reads this, authState, authState.storage
      ensures g == Greeting(hour, authState.GetName())
    {
      Greeting(hour, authState.GetName())
    }

    /** `toggleView(view)`: only the current view changes. */
    method ToggleView(view: string)
      modifies this
      ensures currentView == view && searchValue == old(searchValue)
    {
      currentView := view;
    }

    /** `emitValueToSearch(value)`: only the search value changes. */
    method EmitValueToSearch(value: string)
      modifies this
      ensures searchValue == value && currentView == old(currentView)
    {
      searchValue := value;
    }

    /** `logout()`: the token cookie and the stored name are gone, and the router goes to `/login`. */
    method Logout()
      modifies authService.cookies, authService.router, authState.storage
      ensures authService.cookies.cookies == old(authService.cookies.cookies) - {TokenKey}
      ensures authService.router.navigations == old(authService.router.navigations) + [["/login"]]
      ensures authState.storage.items == old(authState.storage.items) - {NameKey}
      ensures GetGreetings(0) == "Morning, " + DefaultUser
    {
      authService.Logout();
      authState.ClearName();
    }
  }
}
