/**
 * The six-box passcode entry. Each box holds what was typed into it; typing
 * one character moves the focus on, Backspace over an empty box moves it
 * back, and any input in the last box submits the six values joined in order.
 */
module LoginComponent {
  import opened Json
  import opened Strings
  import opened HttpClient
  import opened Browser
  import opened AuthState
  import opened AuthService

  /** The number of input boxes the view renders. */
  const InputCount := 6

  const DashboardRoute := ["/dashboard"]

  /** Where Backspace leaves the focus: one box back when the focused box is blank and not the first. */
  function FocusBack(focus: int, focusedValue: string): (f: int)
    ensures Trim(focusedValue) == "" && focus > 0 ==> f == focus - 1
    ensures !(Trim(focusedValue) == "" && focus > 0) ==> f == focus
  {
    if Trim(focusedValue) == "" && focus > 0 then focus - 1 else focus
  }

  /** Where an input event leaves the focus: on to the next box after one character, except from the last box. */
  function FocusAfterInput(focus: int, value: string, index: int): (f: int)
    ensures |value| == 1 && index < InputCount - 1 ==> f == index + 1
    ensures !(|value| == 1 && index < InputCount - 1) ==> f == focus
  {
    if |value| == 1 && index < InputCount - 1 then index + 1 else focus
  }

  /** Backspace moves back over a box holding only white space, and never past the first box. */
  lemma FocusBackExamples()
    ensures FocusBack(1, "") == 0 && FocusBack(1, " \t") == 0
    ensures FocusBack(0, "") == 0 && FocusBack(3, "7") == 3
  {
    TrimEmpty("");
    TrimEmpty(" \t");
    TrimEmpty("7");
  }

  /** Six one-character boxes join into a six-character passcode holding those characters in order. */
  lemma PasscodeOfSingles(boxes: seq<string>)
    requires |boxes| == InputCount && forall i :: 0 <= i < |boxes| ==> |boxes[i]| == 1
    ensures |Concat(boxes)| == InputCount
    ensures forall i :: 0 <= i < InputCount ==> Concat(boxes)[i] == boxes[i][0]
  {
    ConcatSingles(boxes);
  }

  /**
   * The reply `sendAuthRequest` takes as a login: a success whose body is
   * not `null`. On a `null` body, reading `response.name` throws a TypeError,
   * which `catchError` handles like a refused passcode.
   */
  predicate LoginAccepted(reply: HttpResult) {
    reply.Success? && !reply.body.JNull?
  }

  class LoginComponent {
    /** The values of the six input boxes. */
    const slots: array<string>
    var focusedIndex: int
    var wrongPasscode: bool
    /** The passcodes sent to the server, in order. */
    var attempts: seq<string>
    const authState: AuthStateService
    const router: Router

    predicate Valid()
      reads this
    {
      slots.Length == InputCount && 0 <= focusedIndex < InputCount
    }

    constructor (authState: AuthStateService, router: Router)
      ensures Valid() && fresh(slots)
      ensures slots[..] == ["", "", "", "", "", ""]
      ensures focusedIndex == 0 && !wrongPasscode && attempts == []
      ensures this.authState == authState && this.router == router
    {
      slots := new string[InputCount](_ => "");
      focusedIndex, wrongPasscode, attempts := 0, false, [];
      this.authState, this.router := authState, router;
    }

    /** `moveFocusBack()`: moves back one box when the focused one is blank; no box's value changes. */
    method MoveFocusBack()
      requires Valid()
      modifies this
      ensures Valid()
      ensures focusedIndex == FocusBack(old(focusedIndex), slots[old(focusedIndex)])
      ensures wrongPasscode == old(wrongPasscode) && attempts == old(attempts)
    {
      if Trim(slots[focusedIndex]) == "" && focusedIndex > 0 {
        focusedIndex := focusedIndex - 1;
      }
    }

    /** `handleKeyDown(event)`: only Backspace moves the focus. */
    method HandleKeyDown(key: string)
      requires Valid()
      modifies this
      ensures Valid()
      ensures focusedIndex == if key == "Backspace" then FocusBack(old(focusedIndex), slots[old(focusedIndex)])
                              else old(focusedIndex)
      ensures wrongPasscode == old(wrongPasscode) && attempts == old(attempts)
    {
      if key == "Backspace" {
        MoveFocusBack();
      }
    }

    /** `handleAuthSuccess(name)`: stores the name, then goes to the dashboard. */
    method HandleAuthSuccess(name: string)
      modifies authState.storage, router
      ensures authState.storage.items == old(authState.storage.items)[NameKey := name]
      ensures router.navigations == old(router.navigations) + [DashboardRoute]
    {
      authState.SetName(name);
      router.Navigate(DashboardRoute);
    }

    /**
     * `sendAuthRequest(passcode)`, with `server` answering the request: on a
     * successful reply with a body the returned name is stored (as `setItem` renders it)
     * and the dashboard opened; on a failure or a `null` body only the flag is raised.
     */
    method SendAuthRequest(passcode: string, server: HttpRequest -> HttpResult)
      requires Valid()
      modifies this, authState.storage, router
      ensures Valid() && focusedIndex == old(focusedIndex)
      ensures attempts == old(attempts) + [passcode]
      ensures LoginAccepted(server(Authenticate(passcode))) ==>
        wrongPasscode == old(wrongPasscode)
        && authState.storage.items ==
           old(authState.storage.items)[NameKey := JsString(Member(server(Authenticate(passcode)).body, "name"))]
        && router.navigations == old(router.navigations) + [DashboardRoute]
      ensures !LoginAccepted(server(Authenticate(passcode))) ==>
        wrongPasscode && authState.storage.items == old(authState.storage.items)
        && router.navigations == old(router.navigations)
    {
      attempts := attempts + [passcode];
      var reply := server(Authenticate(passcode));
      if reply.Success? && !reply.body.JNull? {
        HandleAuthSuccess(JsString(Member(reply.body, "name")));
      } else {
        wrongPasscode := true;
      }
    }

    /**
     * `handleInput(event, index)` after box `index` came to hold `value`:
     * the focus moves on after one character; boxes before the last clear
     * the flag and send nothing; the last box sends the six values joined,
     * whatever was typed into it.
     */
    method HandleInput(value: string, index: int, server: HttpRequest -> HttpResult)
      requires Valid() && 0 <= index < InputCount
      modifies this, slots, authState.storage, router
      ensures Valid()
      ensures slots[..] == old(slots[..])[index := value]
      ensures focusedIndex == FocusAfterInput(old(focusedIndex), value, index)
      ensures index < InputCount - 1 ==>
        !wrongPasscode && attempts == old(attempts)
        && authState.storage.items == old(authState.storage.items) && router.navigations == old(router.navigations)
      ensures index == InputCount - 1 ==> attempts == old(attempts) + [Concat(slots[..])]
      ensures index == InputCount - 1 && LoginAccepted(server(Authenticate(Concat(slots[..])))) ==>
        wrongPasscode == old(wrongPasscode)
        && authState.storage.items ==
           old(authState.storage.items)[NameKey := JsString(Member(server(Authenticate(Concat(slots[..]))).body, "name"))]
        && router.navigations == old(router.navigations) + [DashboardRoute]
      ensures index == InputCount - 1 && !LoginAccepted(server(Authenticate(Concat(slots[..])))) ==>
        wrongPasscode && authState.storage.items == old(authState.storage.items)
        && router.navigations == old(router.navigations)
    {
      slots[index] := value;
      if |value| == 1 {
        if index < InputCount - 1 {
          focusedIndex := index + 1;
        }
      }
      if index < InputCount - 1 {
        wrongPasscode := false;
      }
      if index == InputCount - 1 {
        var passcode := Concat(slots[..]);
        SendAuthRequest(passcode, server);
      }
    }
  }
}
