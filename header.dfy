/** The page header's title, looked up from the navigation table. */
module Header {
  import opened MockData

  /** `i` is the first item whose path is `pathname`. */
  ghost predicate FirstMatch(items: seq<NavItem>, pathname: string, i: int) {
    0 <= i < |items| && items[i].path == pathname && forall j :: 0 <= j < i ==> items[j].path != pathname
  }

  /** `getCurrentPageTitle`: the name of the first item whose path is the
      current pathname, or "Dashboard". */
  function CurrentPageTitle(items: seq<NavItem>, pathname: string): (r: string)
    ensures r == "Dashboard" || exists i :: 0 <= i < |items| && items[i].name == r
    ensures (forall i :: 0 <= i < |items| ==> items[i].path != pathname) ==> r == "Dashboard"
    ensures forall i :: FirstMatch(items, pathname, i) ==> r == items[i].name
    decreases |items|
  {
    if items == [] then "Dashboard"
    else if items[0].path == pathname then items[0].name
    else
      var r := CurrentPageTitle(items[1..], pathname);
      assert forall i :: 1 <= i < |items| ==> items[i] == items[1..][i - 1];
      assert forall i :: FirstMatch(items, pathname, i) ==> i > 0 && FirstMatch(items[1..], pathname, i - 1);
      r
  }

  /** With the shipped navigation table: "/" is "Dashboard", the planning
      path is "Mission Planning", and an unknown path falls back to
      "Dashboard". */
  lemma ShippedTitles()
    ensures CurrentPageTitle(NavigationItems, "/") == "Dashboard"
    ensures CurrentPageTitle(NavigationItems, "/mission-planning") == "Mission Planning"
    ensures CurrentPageTitle(NavigationItems, "/settings") == "Dashboard"
  {
    assert NavigationItems[1].path == "/mission-planning";
    assert NavigationItems[0].path != "/mission-planning";
    forall i | 0 <= i < |NavigationItems| ensures NavigationItems[i].path != "/settings" {
    }
  }
}
