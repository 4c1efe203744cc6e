/** The sign-in page: two forms, the change handlers that fill them, and
    the submit handlers whose delayed completions write the session into
    storage and navigate home. A pending timer callback is a step that
    `FireNextTimer` runs; since both submit buttons are disabled while
    loading, at most one is ever pending. */
module LoginPage {
  import opened Wrappers
  import opened UserJson
  import opened Browser
  import opened AuthContext

  const FacilityManager := "Facility Manager"

  /** A `setTimeout` callback still to run, with the form values it captured. */
  datatype TimerCallback =
    | CompleteLogin(email: string)
    | CompleteRegister(name: string, email: string)

  /** The user record a completed callback stores. Login never looks at the
      password and always names the user "John Smith". */
  function StoredUser(callback: TimerCallback): (u: User)
    ensures u.role == FacilityManager
    ensures callback.CompleteLogin? ==> u.name == "John Smith" && u.email == callback.email
    ensures callback.CompleteRegister? ==> u.name == callback.name && u.email == callback.email
  {
    match callback
    case CompleteLogin(email) => User("John Smith", email, FacilityManager)
    case CompleteRegister(name, email) => User(name, email, FacilityManager)
  }

  const LoginFields: set<string> := {"email", "password"}
  const RegisterFields: set<string> := {"name", "email", "password", "confirmPassword"}

  class LoginPage {
    const window: Window
    var isLoading: bool
    /** `loginForm`: an object whose keys the inputs' names select. */
    var loginForm: map<string, string>
    /** `registerForm` */
    var registerForm: map<string, string>
    /** Callbacks scheduled and not yet run, in the order they will fire. */
    var timers: seq<TimerCallback>

    /** Both forms hold their initial fields (change handlers only add keys),
        the page is loading exactly while a completion is pending, and at
        most one is. */
    ghost predicate Valid()
      reads this
    {
      && LoginFields <= loginForm.Keys && RegisterFields <= registerForm.Keys
      && (isLoading <==> timers != [])
      && |timers| <= 1
    }

    constructor (window: Window)
      ensures Valid() && this.window == window
      ensures !isLoading && timers == []
      ensures loginForm == map["email" := "", "password" := ""]
      ensures registerForm == map["name" := "", "email" := "", "password" := "", "confirmPassword" := ""]
    {
      this.window := window;
      isLoading := false;
      loginForm := map["email" := "", "password" := ""];
      registerForm := map["name" := "", "email" := "", "password" := "", "confirmPassword" := ""];
      timers := [];
    }

    /** `handleLoginChange` for the input named `name`. */
    method HandleLoginChange(name: string, value: string)
      requires Valid()
      modifies this`loginForm
      ensures Valid()
      ensures loginForm.Keys == old(loginForm.Keys) + {name} && loginForm[name] == value
      ensures forall k :: k in old(loginForm) && k != name ==> loginForm[k] == old(loginForm)[k]
    {
      loginForm := loginForm[name := value];
    }

    /** `handleRegisterChange` for the input named `name`. */
    method HandleRegisterChange(name: string, value: string)
      requires Valid()
      modifies this`registerForm
      ensures Valid()
      ensures registerForm.Keys == old(registerForm.Keys) + {name} && registerForm[name] == value
      ensures forall k :: k in old(registerForm) && k != name ==> registerForm[k] == old(registerForm)[k]
    {
      registerForm := registerForm[name := value];
    }

    /** `handleLogin`: starts loading and schedules the completion with the
        typed email; the password is not read. The submit button is disabled
        while loading, so the page is idle when it runs. */
    method HandleLogin()
      requires Valid() && !isLoading
      modifies this`isLoading, this`timers
      ensures Valid()
      ensures isLoading
      ensures timers == [CompleteLogin(loginForm["email"])]
    {
      isLoading := true;
      timers := timers + [CompleteLogin(loginForm["email"])];
    }

    /** `handleRegister`: when the two passwords differ nothing is scheduled
        and loading ends at once; otherwise the completion is scheduled. The
        submit button is disabled while loading, so the page is idle when it
        runs. */
    method HandleRegister() returns (passwordsMatch: bool)
      requires Valid() && !isLoading
      modifies this`isLoading, this`timers
      ensures Valid()
      ensures passwordsMatch <==> registerForm["password"] == registerForm["confirmPassword"]
      ensures !passwordsMatch ==> !isLoading && timers == []
      ensures passwordsMatch ==>
        isLoading && timers == [CompleteRegister(registerForm["name"], registerForm["email"])]
    {
      isLoading := true;
      if registerForm["password"] != registerForm["confirmPassword"] {
        isLoading := false;
        return false;
      }
      timers := timers + [CompleteRegister(registerForm["name"], registerForm["email"])];
      passwordsMatch := true;
    }

    /** The earliest pending callback fires: it stores the session, ends
        loading and navigates to "/". Nothing happens when none is pending. */
    method FireNextTimer() returns (fired: Option<TimerCallback>)
      requires Valid()
      modifies this`isLoading, this`timers, window
      ensures Valid()
      ensures fired.None? <==> !old(isLoading)
      ensures fired.None? ==>
        timers == old(timers) && isLoading == old(isLoading) &&
        window.storage == old(window.storage) && window.path == old(window.path)
      ensures fired.Some? ==>
        && fired.value == old(timers)[0]
        && timers == []
        && window.storage == LoggedInStorage(old(window.storage), StoredUser(fired.value))
        && !isLoading
        && window.path == "/"
    {
      if timers == [] {
        return None;
      }
      var callback := timers[0];
      timers := timers[1..];
      window.storage := window.storage["isLoggedIn" := "true"];
      window.storage := window.storage["user" := Stringify(StoredUser(callback))];
      isLoading := false;
      window.path := "/";
      fired := Some(callback);
    }
  }

  /** After a completed registration the next mount of the session provider
      is signed in as the registered user, with the manager role. */
  lemma {:induction false} RegisterThenReload(storage: map<string, string>, name: string, email: string,
                                              jsonParse: string -> Parsed)
    requires ReadsStringified(jsonParse)
    ensures ReadSession(LoggedInStorage(storage, StoredUser(CompleteRegister(name, email))), jsonParse) ==
      SignedIn(User(name, email, FacilityManager))
  {
    LoginThenReload(storage, StoredUser(CompleteRegister(name, email)), jsonParse);
  }
}
