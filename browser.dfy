/** The browser state the session code touches: `localStorage` as a
    string-to-string map, and the current route that `navigate` changes. */
module Browser {
  import opened Wrappers

  class Window {
    /** `localStorage` */
    var storage: map<string, string>
    /** the router's current pathname */
    var path: string

    constructor (storage: map<string, string>, path: string)
      ensures this.storage == storage && this.path == path
    {
      this.storage := storage;
      this.path := path;
    }
  }

  /** `localStorage.getItem(key)`: null when the key is absent. */
  function GetItem(storage: map<string, string>, key: string): (r: Option<string>)
    ensures r.Some? <==> key in storage
    ensures r.Some? ==> r.value == storage[key]
  {
    if key in storage then Some(storage[key]) else None
  }
}
