/** The waypoint path editor: an ordered list of waypoints with an id
    counter, the handlers that edit it, the effects that synchronise it with
    the owner, the SVG path serialiser and the per-position marker rules. */
module DroneMissionMap {
  import opened Wrappers
  import opened Text
  import opened Seqs

  /** `Waypoint`. Coordinates are abstract integers (see README). */
  datatype Waypoint = Waypoint(id: int, lat: int, lng: int)

  /** No two waypoints of `ws` share an id. */
  ghost predicate DistinctIds(ws: seq<Waypoint>) {
    forall i, j :: 0 <= i < j < |ws| ==> ws[i].id != ws[j].id
  }

  /** Every waypoint id in `ws` is below `bound`. */
  ghost predicate IdsBelow(ws: seq<Waypoint>, bound: int) {
    forall i :: 0 <= i < |ws| ==> ws[i].id < bound
  }

  // ---------------------------------------------------------------------
  // The editing operations on the list, as the handlers compute them
  // ---------------------------------------------------------------------

  /** `localWaypoints.map(wp => wp.id === id ? {...wp, lat, lng} : wp)` */
  function Dragged(ws: seq<Waypoint>, id: int, lat: int, lng: int): (r: seq<Waypoint>)
    ensures |r| == |ws|
    ensures forall i :: 0 <= i < |ws| ==> r[i].id == ws[i].id
    ensures forall i :: 0 <= i < |ws| && ws[i].id == id ==> r[i].lat == lat && r[i].lng == lng
    ensures forall i :: 0 <= i < |ws| && ws[i].id != id ==> r[i] == ws[i]
    decreases |ws|
  {
    if ws == [] then []
    else
      var head := if ws[0].id == id then ws[0].(lat := lat, lng := lng) else ws[0];
      [head] + Dragged(ws[1..], id, lat, lng)
  }

  /** Dragging an id that no waypoint carries changes nothing. */
  lemma DragUnknownId(ws: seq<Waypoint>, id: int, lat: int, lng: int)
    requires forall i :: 0 <= i < |ws| ==> ws[i].id != id
    ensures Dragged(ws, id, lat, lng) == ws
  {
  }

  /** `localWaypoints.filter(wp => wp.id !== id)` */
  function WithoutId(ws: seq<Waypoint>, id: int): (r: seq<Waypoint>)
  {
    Filter(ws, (w: Waypoint) => w.id != id)
  }

  /** Removal drops every waypoint carrying `id`, keeps every copy of every
      other one, and
      keeps the survivors in their original relative order; an unknown id
      leaves the list as it was. */
  lemma {:induction false} RemoveSpec(ws: seq<Waypoint>, id: int)
    ensures IsSubsequence(WithoutId(ws, id), ws)
    ensures forall w :: w in WithoutId(ws, id) <==> w in ws && w.id != id
    ensures (forall i :: 0 <= i < |ws| ==> ws[i].id != id) <==> WithoutId(ws, id) == ws
    ensures forall w :: Count(WithoutId(ws, id), w) == if w.id != id then Count(ws, w) else 0
  {
    var keep := (w: Waypoint) => w.id != id;
    FilterIsSubsequence(ws, keep);
    forall w ensures w in WithoutId(ws, id) <==> w in ws && w.id != id {
      FilterMembership(ws, keep, w);
    }
    forall w ensures Count(WithoutId(ws, id), w) == if w.id != id then Count(ws, w) else 0 {
      FilterCount(ws, keep, w);
    }
    FilterKeepsAll(ws, keep);
  }

  // ---------------------------------------------------------------------
  // createPathString
  // ---------------------------------------------------------------------

  /** `${wp.lat},${wp.lng}` */
  function CoordText(w: Waypoint): string {
    IntToString(w.lat) + "," + IntToString(w.lng)
  }

  /** The command the reducer emits for the waypoint at `index`. */
  function Command(w: Waypoint, index: nat): string {
    (if index == 0 then "M " else "L ") + CoordText(w)
  }

  /** The `reduce` over the waypoints from position `index` on, starting
      from the accumulated string `path`. */
  function ReducePath(path: string, ws: seq<Waypoint>, index: nat): string
    decreases |ws|
  {
    if ws == [] then path else ReducePath(path + " " + Command(ws[0], index), ws[1..], index + 1)
  }

  /** `createPathString()` */
  function CreatePathString(ws: seq<Waypoint>): string {
    if |ws| < 2 then "" else ReducePath("", ws, 0)
  }

  /** Reference description: one " L lat,lng" per waypoint, in order. */
  function LineTos(ws: seq<Waypoint>): string
    decreases |ws|
  {
    if ws == [] then "" else " L " + CoordText(ws[0]) + LineTos(ws[1..])
  }

  lemma {:induction false} ReducePathAppends(path: string, ws: seq<Waypoint>, index: nat)
    requires index > 0
    ensures ReducePath(path, ws, index) == path + LineTos(ws)
    decreases |ws|
  {
    if ws != [] {
      ReducePathAppends(path + " " + Command(ws[0], index), ws[1..], index + 1);
    }
  }

  /** Fewer than two waypoints give the empty string; otherwise one
      " M lat,lng" for the first waypoint and one " L lat,lng" for each later
      one, in list order. */
  lemma CreatePathStringShape(ws: seq<Waypoint>)
    ensures |ws| < 2 ==> CreatePathString(ws) == ""
    ensures |ws| >= 2 ==> CreatePathString(ws) == " M " + CoordText(ws[0]) + LineTos(ws[1..])
  {
    if |ws| >= 2 {
      assert ReducePath("", ws, 0) == ReducePath("" + " " + Command(ws[0], 0), ws[1..], 1);
      assert "" + " " + Command(ws[0], 0) == " M " + CoordText(ws[0]);
      ReducePathAppends(" M " + CoordText(ws[0]), ws[1..], 1);
    }
  }

  /** The coordinates of a path, in order. */
  function Points(ws: seq<Waypoint>): (r: seq<(int, int)>)
    ensures |r| == |ws|
    ensures forall i :: 0 <= i < |ws| ==> r[i] == (ws[i].lat, ws[i].lng)
    decreases |ws|
  {
    if ws == [] then [] else [(ws[0].lat, ws[0].lng)] + Points(ws[1..])
  }

  /** A character that may appear in a printed integer. */
  predicate NumChar(c: char) { c == '-' || IsDigit(c) }

  /** Length of the leading run of number characters. */
  function NumberLength(s: string): (n: nat)
    ensures n <= |s|
    decreases |s|
  {
    if s != [] && NumChar(s[0]) then 1 + NumberLength(s[1..]) else 0
  }

  /** Reads "x,y" from the front of `s`, returning the pair and what follows. */
  function ParseCoord(s: string): (r: Option<(int, int, string)>)
    ensures r.Some? ==> |r.value.2| < |s|
  {
    var k := NumberLength(s);
    match ParseInt(s[..k])
    case None => None
    case Some(x) =>
      if k < |s| && s[k] == ',' then
        var t := s[k + 1..];
        var m := NumberLength(t);
        match ParseInt(t[..m])
        case None => None
        case Some(y) => Some((x, y, t[m..]))
      else None
  }

  /** Reads a run of " L x,y" commands. */
  function ParseLineTos(s: string): Option<seq<(int, int)>>
    decreases |s|
  {
    if s == [] then Some([])
    else if StartsWith(s, " L ") then
      match ParseCoord(s[3..])
      case None => None
      case Some(c) =>
        match ParseLineTos(c.2)
        case None => None
        case Some(rest) => Some([(c.0, c.1)] + rest)
    else None
  }

  /** Reads an SVG path string of the shape `createPathString` writes. */
  function ParsePathString(s: string): Option<seq<(int, int)>> {
    if s == [] then Some([])
    else if StartsWith(s, " M ") then
      match ParseCoord(s[3..])
      case None => None
      case Some(c) =>
        match ParseLineTos(c.2)
        case None => None
        case Some(rest) => Some([(c.0, c.1)] + rest)
    else None
  }

  lemma {:induction false} NumberLengthOf(a: string, rest: string)
    requires forall i :: 0 <= i < |a| ==> NumChar(a[i])
    requires rest == [] || !NumChar(rest[0])
    ensures NumberLength(a + rest) == |a|
    decreases |a|
  {
    if a != [] {
      assert (a + rest)[1..] == a[1..] + rest;
      NumberLengthOf(a[1..], rest);
    } else {
      assert a + rest == rest;
    }
  }

  lemma IntTextLength(i: int, rest: string)
    requires rest == [] || !NumChar(rest[0])
    ensures NumberLength(IntToString(i) + rest) == |IntToString(i)|
    ensures (IntToString(i) + rest)[..|IntToString(i)|] == IntToString(i)
    ensures (IntToString(i) + rest)[|IntToString(i)|..] == rest
  {
    var a := IntToString(i);
    forall k | 0 <= k < |a| ensures NumChar(a[k]) {
      if i < 0 && k > 0 { assert a[k] == NatToString(-i)[k - 1]; }
    }
    NumberLengthOf(a, rest);
  }

  /** Reading back one printed coordinate pair. */
  lemma ParseCoordText(w: Waypoint, rest: string)
    requires rest == [] || rest[0] == ' '
    ensures ParseCoord(CoordText(w) + rest) == Some((w.lat, w.lng, rest))
  {
    var a, b := IntToString(w.lat), IntToString(w.lng);
    var s := CoordText(w) + rest;
    assert s == a + ("," + b + rest);
    IntTextLength(w.lat, "," + b + rest);
    ParseIntToString(w.lat);
    var t := s[|a| + 1..];
    assert t == b + rest;
    IntTextLength(w.lng, rest);
    ParseIntToString(w.lng);
  }

  /** Reading one command: the three-character prefix, then the pair. */
  lemma ParseCommandText(prefix: string, w: Waypoint, tail: string)
    requires |prefix| == 3
    requires tail == [] || tail[0] == ' '
    ensures StartsWith(prefix + CoordText(w) + tail, prefix)
    ensures (prefix + CoordText(w) + tail)[3..] == CoordText(w) + tail
    ensures ParseCoord((prefix + CoordText(w) + tail)[3..]) == Some((w.lat, w.lng, tail))
  {
    var s := prefix + CoordText(w) + tail;
    assert s[..3] == prefix;
    assert s[3..] == CoordText(w) + tail;
    ParseCoordText(w, tail);
  }

  lemma LineTosStartsWithSpace(ws: seq<Waypoint>)
    ensures LineTos(ws) == [] || LineTos(ws)[0] == ' '
  {
  }

  lemma {:induction false} ParseLineTosRoundTrip(ws: seq<Waypoint>)
    ensures ParseLineTos(LineTos(ws)) == Some(Points(ws))
    decreases |ws|
  {
    if ws != [] {
      var tail := LineTos(ws[1..]);
      LineTosStartsWithSpace(ws[1..]);
      ParseCommandText(" L ", ws[0], tail);
      assert LineTos(ws) == " L " + CoordText(ws[0]) + tail;
      ParseLineTosRoundTrip(ws[1..]);
    }
  }

  /** The path string determines the path's coordinates: reading it back
      yields every waypoint's position in list order (nothing for fewer than
      two waypoints). */
  lemma {:induction false} PathStringRoundTrip(ws: seq<Waypoint>)
    ensures ParsePathString(CreatePathString(ws)) == Some(if |ws| < 2 then [] else Points(ws))
  {
    CreatePathStringShape(ws);
    if |ws| >= 2 {
      var tail := LineTos(ws[1..]);
      LineTosStartsWithSpace(ws[1..]);
      ParseCommandText(" M ", ws[0], tail);
      ParseLineTosRoundTrip(ws[1..]);
      assert Points(ws) == [(ws[0].lat, ws[0].lng)] + Points(ws[1..]);
    }
  }

  // ---------------------------------------------------------------------
  // Per-position marker rules
  // ---------------------------------------------------------------------

  const StartColour := "#047857"
  const EndColour := "#f43f5e"
  const WaypointColour := "#0a9396"

  /** The number drawn inside the marker at `index`. */
  function MarkerNumber(index: nat): string {
    NatToString(index + 1)
  }

  /** The label beside the marker at `index` of `count` markers. */
  function MarkerLabel(index: nat, count: nat): string {
    if index == 0 then "Start"
    else if index == count - 1 then "End"
    else "WP " + MarkerNumber(index)
  }

  /** The fill and label-border colour of the marker at `index`. */
  function MarkerColour(index: nat, count: nat): string {
    if index == 0 then StartColour
    else if index == count - 1 then EndColour
    else WaypointColour
  }

  /** The first marker is "Start", the last of two or more is "End", an
      interior one is "WP" and its 1-based position; the colour follows the
      same three-way choice. */
  lemma MarkerRules(index: nat, count: nat)
    requires index < count
    ensures MarkerLabel(index, count) == "Start" <==> index == 0
    ensures MarkerLabel(index, count) == "End" <==> index > 0 && index == count - 1
    ensures 0 < index < count - 1 ==> MarkerLabel(index, count) == "WP " + NatToString(index + 1)
    ensures MarkerColour(index, count) == StartColour <==> MarkerLabel(index, count) == "Start"
    ensures MarkerColour(index, count) == EndColour <==> MarkerLabel(index, count) == "End"
    ensures MarkerColour(index, count) == WaypointColour <==> 0 < index < count - 1
  {
    if 0 < index < count - 1 {
      var l := MarkerLabel(index, count);
      assert l[0] == 'W';
      assert "Start"[0] == 'S' && "End"[0] == 'E';
    }
  }

  /** Different positions of one path carry different labels. */
  lemma MarkerLabelsDistinct(i: nat, j: nat, count: nat)
    requires i < count && j < count && i != j
    ensures MarkerLabel(i, count) != MarkerLabel(j, count)
  {
    MarkerRules(i, count);
    MarkerRules(j, count);
    if 0 < i < count - 1 && 0 < j < count - 1 {
      var li, lj := MarkerLabel(i, count), MarkerLabel(j, count);
      if li == lj {
        assert li[3..] == MarkerNumber(i) && lj[3..] == MarkerNumber(j);
        IntToStringInjective(i + 1, j + 1);
      }
    }
  }

  /** The direction arrows: one per pair of consecutive waypoints, from the
      earlier to the later (`slice(0, -1).map` with `localWaypoints[i + 1]`). */
  function Arrows(ws: seq<Waypoint>): (r: seq<(Waypoint, Waypoint)>)
    ensures |r| == if |ws| > 1 then |ws| - 1 else 0
    ensures forall i :: 0 <= i < |r| ==> r[i] == (ws[i], ws[i + 1])
    decreases |ws|
  {
    if |ws| < 2 then [] else [(ws[0], ws[1])] + Arrows(ws[1..])
  }

  // ---------------------------------------------------------------------
  // The component's state
  // ---------------------------------------------------------------------

  /** One mounted map: the props it was given and its local state. */
  class MissionMap {
    /** `editable` prop */
    const editable: bool
    /** whether an `onWaypointsChange` prop was given */
    const hasCallback: bool
    /** `localWaypoints` state */
    var localWaypoints: seq<Waypoint>
    /** `nextId` state */
    var nextId: int
    /** `mapLoaded` state */
    var mapLoaded: bool
    /** The `waypoints` value the sync effect last ran with. */
    var propSeen: seq<Waypoint>
    /** The ids the counter has handed out, in the order it did. */
    ghost var issued: seq<int>

    /** The counter only grows past what it has issued. */
    ghost predicate Valid()
      reads this
    {
      && nextId >= 1
      && (forall i, j :: 0 <= i < j < |issued| ==> issued[i] < issued[j])
      && (forall i :: 0 <= i < |issued| ==> issued[i] < nextId)
    }

    /** First render: the local list starts as the `waypoints` prop, the
        counter at 1 and the map not yet loaded. */
    constructor (waypoints: seq<Waypoint>, editable: bool, hasCallback: bool)
      ensures Valid()
      ensures this.editable == editable && this.hasCallback == hasCallback
      ensures localWaypoints == waypoints && nextId == 1 && !mapLoaded && issued == []
      ensures propSeen == waypoints
    {
      this.editable := editable;
      this.hasCallback := hasCallback;
      localWaypoints := waypoints;
      propSeen := waypoints;
      nextId := 1;
      mapLoaded := false;
      issued := [];
    }

    /** The 500 ms loading timer fires. */
    method MapLoadTimerFires()
      modifies this
      ensures mapLoaded
      ensures localWaypoints == old(localWaypoints) && nextId == old(nextId) && issued == old(issued)
      ensures propSeen == old(propSeen)
    {
      mapLoaded := true;
    }

    /** `handleMapClick` at the converted position (`lat`, `lng`). Returns
        whether a new list was set (which re-runs the emit effect). The
        click area, like the markers and the "Clear" button, is rendered
        only once the map has loaded. */
    method HandleMapClick(lat: int, lng: int) returns (updated: bool)
      requires Valid() && mapLoaded
      modifies this
      ensures Valid() && mapLoaded == old(mapLoaded) && propSeen == old(propSeen)
      ensures updated == editable
      ensures !editable ==>
        localWaypoints == old(localWaypoints) && nextId == old(nextId) && issued == old(issued)
      ensures editable ==>
        && localWaypoints == old(localWaypoints) + [Waypoint(old(nextId), lat, lng)]
        && nextId == old(nextId) + 1
        && issued == old(issued) + [old(nextId)]
      // the new id differs from every id the counter issued before, removed or not
      ensures editable ==> forall k :: 0 <= k < |old(issued)| ==> old(issued)[k] != localWaypoints[|localWaypoints| - 1].id
      // a list whose ids are distinct and below the counter stays so
      ensures DistinctIds(old(localWaypoints)) && IdsBelow(old(localWaypoints), old(nextId)) ==>
        DistinctIds(localWaypoints) && IdsBelow(localWaypoints, nextId)
    {
      if !editable {
        return false;
      }
      var newWaypoint := Waypoint(nextId, lat, lng);
      issued := issued + [nextId];
      localWaypoints := localWaypoints + [newWaypoint];
      nextId := nextId + 1;
      updated := true;
    }

    /** `handleWaypointDrag`: not gated on `editable` (no gesture calls it). */
    method HandleWaypointDrag(id: int, newLat: int, newLng: int)
      requires Valid()
      modifies this`localWaypoints
      ensures Valid()
      ensures localWaypoints == Dragged(old(localWaypoints), id, newLat, newLng)
      ensures DistinctIds(old(localWaypoints)) && IdsBelow(old(localWaypoints), nextId) ==>
        DistinctIds(localWaypoints) && IdsBelow(localWaypoints, nextId)
    {
      localWaypoints := Dragged(localWaypoints, id, newLat, newLng);
    }

    /** `handleWaypointRemove` */
    method HandleWaypointRemove(id: int)
      requires Valid()
      modifies this`localWaypoints
      ensures Valid()
      ensures localWaypoints == WithoutId(old(localWaypoints), id)
      ensures DistinctIds(old(localWaypoints)) && IdsBelow(old(localWaypoints), nextId) ==>
        DistinctIds(localWaypoints) && IdsBelow(localWaypoints, nextId)
    {
      RemoveKeepsDistinct(localWaypoints, id, nextId);
      localWaypoints := WithoutId(localWaypoints, id);
    }

    /** Right-click on the marker of waypoint `id` (markers exist only once
        the map has loaded): removes only when editable. */
    method OnMarkerContextMenu(id: int) returns (updated: bool)
      requires Valid() && mapLoaded
      modifies this`localWaypoints
      ensures Valid()
      ensures updated == editable
      ensures localWaypoints == if editable then WithoutId(old(localWaypoints), id) else old(localWaypoints)
    {
      updated := editable;
      if editable {
        HandleWaypointRemove(id);
      }
    }

    /** `clearAllWaypoints`: sets a fresh empty list when editable, even when
        the list is already empty. */
    method ClearAllWaypoints() returns (updated: bool)
      requires Valid()
      modifies this`localWaypoints
      ensures Valid()
      ensures updated == editable
      ensures localWaypoints == if editable then [] else old(localWaypoints)
    {
      updated := editable;
      if editable {
        localWaypoints := [];
      }
    }

    /** The "Clear" button: rendered only on a loaded, editable map and disabled
        while the list is empty, so a press empties a non-empty editable list
        and does nothing otherwise. */
    method ClickClearButton() returns (updated: bool)
      requires Valid() && mapLoaded
      modifies this`localWaypoints
      ensures Valid()
      ensures updated <==> editable && old(localWaypoints) != []
      ensures localWaypoints == if editable then [] else old(localWaypoints)
    {
      if editable && localWaypoints != [] {
        updated := ClearAllWaypoints();
      } else {
        updated := false;
      }
    }

    /** The body of the sync effect: the local list is replaced only when it
        differs by value from `waypoints`; the counter is never touched. */
    method SyncFromProp(waypoints: seq<Waypoint>) returns (updated: bool)
      requires Valid()
      modifies this`localWaypoints
      ensures Valid()
      ensures updated <==> old(localWaypoints) != waypoints
      ensures localWaypoints == waypoints
    {
      updated := waypoints != localWaypoints;
      if updated {
        localWaypoints := waypoints;
      }
    }

    /** A re-render as written, in a parent that omits the `waypoints` prop
        (every mount of the map does). The default `[]` is a new array on
        each render, so the sync effect's dependency always differs and its
        body runs: the local list is reset to `[]` whatever was added. */
    method RerenderWithoutProp() returns (updated: bool)
      requires Valid()
      modifies this`localWaypoints
      ensures Valid()
      ensures updated <==> old(localWaypoints) != []
      ensures localWaypoints == []
    {
      updated := SyncFromProp([]);
    }

    /** A re-render with the sync effect keyed on the prop's value, as a
        shared empty default would make it: the effect body runs only when
        `waypoints` differs from the value it last ran with, so the parent's
        re-renders keep the user's edits. */
    method Rerender(waypoints: seq<Waypoint>) returns (updated: bool)
      requires Valid()
      modifies this`localWaypoints, this`propSeen
      ensures Valid()
      ensures propSeen == waypoints
      ensures waypoints == old(propSeen) ==> !updated && localWaypoints == old(localWaypoints)
      ensures waypoints != old(propSeen) ==>
        localWaypoints == waypoints && (updated <==> old(localWaypoints) != waypoints)
    {
      if waypoints != propSeen {
        updated := SyncFromProp(waypoints);
        propSeen := waypoints;
      } else {
        updated := false;
      }
    }

    /** The emit effect: what `onWaypointsChange` receives, if it is called. */
    method EmitChange() returns (emitted: Option<seq<Waypoint>>)
      ensures emitted.Some? <==> editable && hasCallback
      ensures emitted.Some? ==> emitted.value == localWaypoints
    {
      if hasCallback && editable {
        emitted := Some(localWaypoints);
      } else {
        emitted := None;
      }
    }
  }

  /** Removal keeps ids distinct and below any bound they were below. */
  lemma RemoveKeepsDistinct(ws: seq<Waypoint>, id: int, bound: int)
    ensures DistinctIds(ws) && IdsBelow(ws, bound) ==>
      DistinctIds(WithoutId(ws, id)) && IdsBelow(WithoutId(ws, id), bound)
  {
    if DistinctIds(ws) && IdsBelow(ws, bound) {
      FilterIsSubsequence(ws, (w: Waypoint) => w.id != id);
      SubsequenceKeepsDistinct(WithoutId(ws, id), ws, bound);
    }
  }

  lemma {:induction false} SubsequenceKeepsDistinct(sub: seq<Waypoint>, ws: seq<Waypoint>, bound: int)
    requires IsSubsequence(sub, ws)
    requires DistinctIds(ws) && IdsBelow(ws, bound)
    ensures DistinctIds(sub) && IdsBelow(sub, bound)
    decreases |ws|
  {
    if sub != [] {
      assert DistinctIds(ws[1..]) && IdsBelow(ws[1..], bound);
      if sub[0] == ws[0] && IsSubsequence(sub[1..], ws[1..]) {
        SubsequenceKeepsDistinct(sub[1..], ws[1..], bound);
        SubsequenceElements(sub[1..], ws[1..]);
        forall j | 0 < j < |sub| ensures sub[0].id != sub[j].id {
          assert sub[j] == sub[1..][j - 1];
          assert sub[j] in sub[1..];
          assert sub[j] in ws[1..];
          var k :| 0 <= k < |ws[1..]| && ws[1..][k] == sub[j];
          assert ws[k + 1] == sub[j];
        }
      } else {
        SubsequenceKeepsDistinct(sub, ws[1..], bound);
      }
    }
  }

  /** As written: on an editable map mounted without a `waypoints` prop, a
      click's waypoint is gone after the next render, while the counter has
      moved on. */
  method ClickLostAsWritten() returns (shown: seq<Waypoint>, counter: int)
    ensures shown == [] && counter == 2
  {
    var editor := new MissionMap([], true, true);
    editor.MapLoadTimerFires();
    var updated := editor.HandleMapClick(10, 10);
    updated := editor.RerenderWithoutProp();
    shown, counter := editor.localWaypoints, editor.nextId;
  }

  /** Corrected: with the sync effect keyed on the prop's value, the click
      survives the parent's re-renders. */
  method ClickKeptCorrected() returns (shown: seq<Waypoint>, counter: int)
    ensures shown == [Waypoint(1, 10, 10)] && counter == 2
  {
    var editor := new MissionMap([], true, true);
    editor.MapLoadTimerFires();
    var updated := editor.HandleMapClick(10, 10);
    updated := editor.Rerender([]);
    updated := editor.Rerender([]);
    shown, counter := editor.localWaypoints, editor.nextId;
  }

  /** A run of the editor with the sync effect keyed on the prop's value:
      three clicks, a re-render, a removal and a click. The counter keeps
      climbing across the removal, so the last click does not reuse the
      removed id. */
  method EditingSession()
  {
    var editor := new MissionMap([], true, true);
    editor.MapLoadTimerFires();
    var updated := editor.HandleMapClick(10, 10);
    updated := editor.HandleMapClick(50, 50);
    updated := editor.HandleMapClick(90, 10);
    updated := editor.Rerender([]);
    assert !updated;
    assert editor.localWaypoints == [Waypoint(1, 10, 10), Waypoint(2, 50, 50), Waypoint(3, 90, 10)];
    assert |Arrows(editor.localWaypoints)| == 2;
    assert MarkerLabel(0, 3) == "Start" && MarkerLabel(2, 3) == "End";

    ghost var before := editor.localWaypoints;
    var keep := (w: Waypoint) => w.id != 2;
    assert before[1..][1..][1..] == [];
    assert Filter(before[1..][1..], keep) == [Waypoint(3, 90, 10)];
    assert Filter(before[1..], keep) == [Waypoint(3, 90, 10)];
    assert Filter(before, keep) == [Waypoint(1, 10, 10), Waypoint(3, 90, 10)];
    editor.HandleWaypointRemove(2);
    assert editor.localWaypoints == [Waypoint(1, 10, 10), Waypoint(3, 90, 10)];
    updated := editor.HandleMapClick(20, 20);
    assert editor.localWaypoints[2].id == 4;
  }

  /** A new prop does not lift the counter above the ids it brings in, so
      the next click can issue an id the list already holds. */
  method PropSyncSession()
  {
    var editor := new MissionMap([Waypoint(1, 1, 1)], true, true);
    editor.MapLoadTimerFires();
    var updated := editor.Rerender([Waypoint(1, 5, 5)]);
    assert updated && editor.nextId == 1;
    updated := editor.HandleMapClick(30, 30);
    assert editor.localWaypoints == [Waypoint(1, 5, 5), Waypoint(1, 30, 30)];
    assert editor.localWaypoints[0].id == editor.localWaypoints[1].id;
    assert !DistinctIds(editor.localWaypoints);
  }
}
