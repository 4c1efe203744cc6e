/** The signed-in user record and its JSON text, as `JSON.stringify` writes
    it into storage and `JSON.parse` reads it back. */
module UserJson {
  import opened Wrappers
  import opened Text

  /** `User` */
  datatype User = User(name: string, email: string, role: string)

  /** The body of a JSON string literal: quote and backslash are escaped. */
  function Escape(s: string): string
    decreases |s|
  {
    if s == [] then []
    else if s[0] == '"' || s[0] == '\\' then ['\\', s[0]] + Escape(s[1..])
    else [s[0]] + Escape(s[1..])
  }

  /** A JSON string literal. */
  function Quote(s: string): string {
    "\"" + Escape(s) + "\""
  }

  /** `JSON.stringify(user)`: the keys in declaration order, no spaces. */
  function Stringify(u: User): string {
    "{\"name\":" + Quote(u.name) + ",\"email\":" + Quote(u.email) + ",\"role\":" + Quote(u.role) + "}"
  }

  /** Reads a string literal's body up to its closing quote, returning the
      unescaped text and what follows the quote. */
  function ParseStringBody(s: string): (r: Option<(string, string)>)
    ensures r.Some? ==> |r.value.1| < |s|
    decreases |s|
  {
    if s == [] then None
    else if s[0] == '"' then Some(([], s[1..]))
    else if s[0] == '\\' then
      if |s| < 2 then None
      else
        match ParseStringBody(s[2..])
        case None => None
        case Some(p) => Some(([s[1]] + p.0, p.1))
    else
      match ParseStringBody(s[1..])
      case None => None
      case Some(p) => Some(([s[0]] + p.0, p.1))
  }

  /** Consumes the literal `lit` from the front of `s`. */
  function Expect(s: string, lit: string): (r: Option<string>)
    ensures r.Some? ==> |r.value| == |s| - |lit|
  {
    if StartsWith(s, lit) then Some(s[|lit|..]) else None
  }

  /** Reads `"key":"value"` after `prefix`, returning the value and the rest. */
  function Field(s: string, prefix: string): Option<(string, string)> {
    match Expect(s, prefix)
    case None => None
    case Some(t) => ParseStringBody(t)
  }

  /** Reads a user record in the form `Stringify` writes. */
  function Parse(s: string): Option<User> {
    match Field(s, "{\"name\":\"")
    case None => None
    case Some(n) =>
      match Field(n.1, ",\"email\":\"")
      case None => None
      case Some(e) =>
        match Field(e.1, ",\"role\":\"")
        case None => None
        case Some(r) => if r.1 == "}" then Some(User(n.0, e.0, r.0)) else None
  }

  lemma {:induction false} ParseEscaped(x: string, rest: string)
    ensures ParseStringBody(Escape(x) + "\"" + rest) == Some((x, rest))
    decreases |x|
  {
    var s := Escape(x) + "\"" + rest;
    if x == [] {
      assert s == "\"" + rest;
    } else {
      ParseEscaped(x[1..], rest);
      var tail := Escape(x[1..]) + "\"" + rest;
      if x[0] == '"' || x[0] == '\\' {
        assert s == ['\\', x[0]] + tail;
        assert s[2..] == tail;
      } else {
        assert s == [x[0]] + tail;
        assert s[1..] == tail;
      }
      assert x == [x[0]] + x[1..];
    }
  }

  lemma FieldOf(key: string, value: string, rest: string)
    ensures Field(key + Quote(value) + rest, key + "\"") == Some((value, rest))
  {
    var s := key + Quote(value) + rest;
    assert s == (key + "\"") + (Escape(value) + "\"" + rest);
    assert s[|key + "\""|..] == Escape(value) + "\"" + rest;
    ParseEscaped(value, rest);
  }

  /** The stored text of a user reads back as that user. */
  lemma ParseStringify(u: User)
    ensures Parse(Stringify(u)) == Some(u)
  {
    var afterRole := "}";
    var afterEmail := ",\"role\":" + Quote(u.role) + afterRole;
    var afterName := ",\"email\":" + Quote(u.email) + afterEmail;
    assert Stringify(u) == "{\"name\":" + Quote(u.name) + afterName;
    FieldOf("{\"name\":", u.name, afterName);
    FieldOf(",\"email\":", u.email, afterEmail);
    FieldOf(",\"role\":", u.role, afterRole);
  }

  /** The stored text of a user is never empty (so it is truthy). */
  lemma StringifyNonEmpty(u: User)
    ensures Stringify(u) != "" && Stringify(u)[0] == '{'
  {
  }
}
