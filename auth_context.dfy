/** The session provider: it restores the session from storage on mount,
    and its `login` and `logout` keep the state and the storage in step. */
module AuthContext {
  import opened Wrappers
  import opened UserJson
  import opened Text
  import opened Browser

  /** What `JSON.parse` makes of the stored user text. */
  datatype Parsed =
    /** the text is not JSON: the parse throws */
    | Throws
    /** a record with the user's fields */
    | UserRecord(user: User)
    /** JSON that is not a user record, such as `null` */
    | OtherValue

  /** `JSON.parse` is not modelled; the reader `jsonParse` stands for it,
      and it must read back every text `JSON.stringify` writes for a user. */
  ghost predicate ReadsStringified(jsonParse: string -> Parsed) {
    forall u :: jsonParse(Stringify(u)) == UserRecord(u)
  }

  /** One such reader: it recognises the layout `Stringify` writes and the
      text `null`, and treats every other text as not JSON. */
  function LayoutReader(text: string): Parsed {
    match Parse(text)
    case Some(u) => UserRecord(u)
    case None => if text == "null" then OtherValue else Throws
  }

  lemma LayoutReaderReadsStringified()
    ensures ReadsStringified(LayoutReader)
  {
    forall u ensures LayoutReader(Stringify(u)) == UserRecord(u) {
      ParseStringify(u);
    }
  }

  /** What the mount effect finds in storage. */
  datatype StoredSession =
    | SignedIn(user: User)
    /** signed in, but the parsed user entry is not a user record */
    | SignedInWithoutUser
    | SignedOut
    /** the "user" entry is not JSON: `JSON.parse` throws */
    | Unreadable

  /** The mount effect's reading: signed in when "isLoggedIn" is exactly
      "true" and a non-empty "user" entry exists; what the user is depends
      on what `jsonParse` makes of that entry. */
  function ReadSession(storage: map<string, string>, jsonParse: string -> Parsed): StoredSession {
    var isLoggedIn := GetItem(storage, "isLoggedIn") == Some("true");
    var storedUser := GetItem(storage, "user");
    if isLoggedIn && storedUser.Some? && storedUser.value != "" then
      match jsonParse(storedUser.value)
      case UserRecord(u) => SignedIn(u)
      case OtherValue => SignedInWithoutUser
      case Throws => Unreadable
    else SignedOut
  }

  /** A stored user entry `null` is JSON that is not a user: the mount
      signs in with no user. */
  lemma NullUserEntry(storage: map<string, string>, jsonParse: string -> Parsed)
    requires GetItem(storage, "isLoggedIn") == Some("true") && GetItem(storage, "user") == Some("null")
    requires jsonParse("null") == OtherValue
    ensures ReadSession(storage, jsonParse) == SignedInWithoutUser
  {
  }

  /** The layout reader treats `null` as `JSON.parse` does: JSON that is
      not a user record. */
  lemma LayoutReaderReadsNull()
    ensures LayoutReader("null") == OtherValue
  {
    assert !StartsWith("null", "{\"name\":\"") by { assert "null"[0] != "{\"name\":\""[0]; }
  }

  /** What `login(user)` leaves in storage. */
  function LoggedInStorage(storage: map<string, string>, u: User): map<string, string> {
    storage["isLoggedIn" := "true"]["user" := Stringify(u)]
  }

  /** What `logout()` leaves in storage. */
  function LoggedOutStorage(storage: map<string, string>): map<string, string> {
    storage - {"isLoggedIn", "user"}
  }

  /** A session written by `login` is restored on the next mount. */
  lemma LoginThenReload(storage: map<string, string>, u: User, jsonParse: string -> Parsed)
    requires ReadsStringified(jsonParse)
    ensures ReadSession(LoggedInStorage(storage, u), jsonParse) == SignedIn(u)
  {
    StringifyNonEmpty(u);
  }

  /** After `logout` the next mount starts signed out, and every other key
      is as it was. */
  lemma LogoutThenReload(storage: map<string, string>, jsonParse: string -> Parsed)
    ensures ReadSession(LoggedOutStorage(storage), jsonParse) == SignedOut
    ensures forall k :: k != "isLoggedIn" && k != "user" ==>
      (k in LoggedOutStorage(storage) <==> k in storage) &&
      (k in storage ==> LoggedOutStorage(storage)[k] == storage[k])
  {
  }

  /** What the provider renders. */
  datatype View = LoadingScreen | Children

  class AuthProvider {
    const window: Window
    var isAuthenticated: bool
    var user: Option<User>
    var loading: bool

    /** The authentication flag and the user are in step. */
    ghost predicate InStep()
      reads this
    {
      isAuthenticated <==> user.Some?
    }

    /** First render: signed out, no user, loading. */
    constructor (window: Window)
      ensures this.window == window
      ensures !isAuthenticated && user == None && loading
      ensures InStep()
    {
      this.window := window;
      isAuthenticated := false;
      user := None;
      loading := true;
    }

    /** While loading only the loading screen is shown, never the children. */
    function Render(): (v: View)
      reads this
      ensures v == LoadingScreen <==> loading
      ensures v == Children <==> !loading
    {
      if loading then LoadingScreen else Children
    }

    /** The mount effect (it runs once, on the first render's state), with
        `jsonParse` for `JSON.parse`. Returns false when the parse throws,
        in which case nothing changes. A parsed value that is not a user
        record still signs in, with no user, so the flag and the user fall
        out of step exactly then. */
    method InitFromStorage(jsonParse: string -> Parsed) returns (ok: bool)
      requires !isAuthenticated && user == None
      modifies this
      ensures ok <==> ReadSession(window.storage, jsonParse) != Unreadable
      ensures !ok ==> isAuthenticated == old(isAuthenticated) && user == old(user) && loading == old(loading)
      ensures ok ==> !loading
      ensures isAuthenticated <==>
        ReadSession(window.storage, jsonParse).SignedIn? || ReadSession(window.storage, jsonParse) == SignedInWithoutUser
      ensures user == if ReadSession(window.storage, jsonParse).SignedIn? then
        Some(ReadSession(window.storage, jsonParse).user) else None
      ensures InStep() <==> ReadSession(window.storage, jsonParse) != SignedInWithoutUser
    {
      var session := ReadSession(window.storage, jsonParse);
      match session
      case Unreadable =>
        ok := false;
      case SignedIn(u) =>
        isAuthenticated := true;
        user := Some(u);
        loading := false;
        ok := true;
      case SignedInWithoutUser =>
        isAuthenticated := true;
        user := None;
        loading := false;
        ok := true;
      case SignedOut =>
        loading := false;
        ok := true;
    }

    /** `login(userData)`, callable only once loading has ended, because the
        provider renders its children only then. */
    method Login(userData: User)
      requires !loading
      modifies this, window
      ensures InStep()
      ensures window.storage == LoggedInStorage(old(window.storage), userData)
      ensures window.path == old(window.path)
      ensures isAuthenticated && user == Some(userData) && loading == old(loading)
    {
      window.storage := window.storage["isLoggedIn" := "true"];
      window.storage := window.storage["user" := Stringify(userData)];
      isAuthenticated := true;
      user := Some(userData);
    }

    /** `logout()`, callable only once loading has ended. */
    method Logout()
      requires !loading
      modifies this, window
      ensures InStep()
      ensures window.storage == LoggedOutStorage(old(window.storage))
      ensures window.path == "/login"
      ensures !isAuthenticated && user == None && loading == old(loading)
    {
      window.storage := window.storage - {"isLoggedIn"};
      window.storage := window.storage - {"user"};
      isAuthenticated := false;
      user := None;
      window.path := "/login";
    }
  }
}
