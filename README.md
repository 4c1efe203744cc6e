# Drone survey dashboard — verified model of its logic

This project models, in Dafny, the parts of the drone-survey dashboard that
carry logic rather than markup:

- **The waypoint path editor** (`DroneMissionMap`). It is a class holding the
  ordered waypoint list `localWaypoints`, the id counter `nextId`, the
  `mapLoaded` flag and the `editable` and callback props. Its methods are the
  click, drag, right-click, clear, prop-sync and emit steps. Beside it are the
  SVG path serialiser with a reader that inverts it, the Start/End/"WP n"
  label and colour rules, and the arrows between consecutive waypoints. A
  ghost sequence `issued` records every id the counter has handed out.
- **The pages' filters and formatters**:
  - the duration formatter, mission search/month filter and table-cell
    fallbacks (`SurveyReports`);
  - the de-duplicated location list and the drone filter (`FleetManagement`);
  - the five most recent missions and the status-chart data (`IndexPage`);
  - the active-mission selection, lookup, pause and abort controls
    (`MissionMonitoring`);
  - the battery class and backend/fixture field choice (`DroneStatusCard`);
  - the status and size classes (`StatusBadge`);
  - the page-title lookup (`Header`).
- **The session flow**. `AuthContext` restores the session from storage on
  mount and keeps state and storage in step on login and logout. `LoginPage`
  holds the two forms, the password-match check and the delayed completions
  that write the session. Browser storage is a `map<string, string>` on a
  shared `Browser.Window` object, which also holds the current route. A
  pending `setTimeout` callback is a step run by `FireNextTimer`. Both submit
  buttons are disabled while loading, so at most one callback is pending,
  and the page is loading exactly while one is.

Shared modules: `Wrappers` (Option), `Text` (ASCII lower-casing, `includes`,
decimal printing of integers and its inverse), `Seqs` (`filter`,
subsequences, insertion-ordered de-duplication), `MockData` (the record types
and the navigation table) and `UserJson` (the stored user record's JSON text
and its reader).

The model follows the code in these places, which a reader might not expect:

- The prop sync does not lift `nextId` above the ids in a supplied path.
  `DroneMissionMap.PropSyncSession` shows the next click issuing an id the
  list already holds. So the model claims no global id uniqueness. It proves
  only that counter-issued ids strictly increase, and that a list whose ids
  are distinct and below the counter stays so under add, drag, remove and
  clear.
- `handleWaypointDrag` is not gated on `editable`. No gesture calls it.
- The clear handler by itself sets a new empty list even when the list is
  already empty. The "Clear" button cannot trigger that, because it is shown
  only on an editable map and is disabled while the list is empty.
  `ClickClearButton` models the button.
- Every mount of the map omits the `waypoints` prop. The default `[]` is
  then a new array on each render, so the sync effect runs after every
  render and wipes the user's clicks. This is recorded under "## Findings".
  The editing scenarios use the corrected re-render, `MissionMap.Rerender`.
- The drone cell falls back to "Not assigned" for an empty id as well as for
  null, because the code uses `||`.

## Model

| member | source | states |
|---|---|---|
| DroneMissionMap.Dragged | src/components/map/DroneMissionMap.tsx:86-91 | same length and ids in the same order; the waypoints with the dragged id get the new lat/lng; every other waypoint is unchanged |
| DroneMissionMap.DragUnknownId | src/components/map/DroneMissionMap.tsx:86-91 | dragging an id no waypoint carries leaves the list unchanged |
| DroneMissionMap.RemoveSpec | src/components/map/DroneMissionMap.tsx:94-97 | the result is an order-preserving subsequence; a waypoint survives iff its id differs from the removed one, and then with every copy; the list is unchanged iff no waypoint carries the id |
| DroneMissionMap.CreatePathStringShape | src/components/map/DroneMissionMap.tsx:102-109 | fewer than two waypoints give ""; otherwise " M lat,lng" for the first waypoint then " L lat,lng" for each later one, in list order |
| DroneMissionMap.PathStringRoundTrip | src/components/map/DroneMissionMap.tsx:102-109 | reading the path string back yields every waypoint's coordinates in order (none below two waypoints), so the string loses no point |
| DroneMissionMap.MarkerRules | src/components/map/DroneMissionMap.tsx:259-317 | the label is "Start" iff index 0, "End" iff the last index and not 0, otherwise "WP" followed by the 1-based position; the colour is the start colour iff the label is Start, the end colour iff it is End, and the waypoint colour iff the marker is interior |
| DroneMissionMap.MarkerLabelsDistinct | src/components/map/DroneMissionMap.tsx:316 | two different positions of one path never carry the same label |
| DroneMissionMap.Arrows | src/components/map/DroneMissionMap.tsx:235-254 | n waypoints give n-1 arrows (none below two), arrow i going from waypoint i to waypoint i+1 |
| DroneMissionMap.MissionMap.constructor | src/components/map/DroneMissionMap.tsx:22-32 | the local list starts as the prop, the counter at 1, the map not loaded, nothing issued |
| DroneMissionMap.MissionMap.MapLoadTimerFires | src/components/map/DroneMissionMap.tsx:34-41 | the loading timer's completion sets the map loaded and changes nothing else |
| DroneMissionMap.MissionMap.HandleMapClick | src/components/map/DroneMissionMap.tsx:62-83 | callable only once the map has loaded, since the click area is rendered only then (370-379); read-only: list, counter and issued ids unchanged; editable: exactly one waypoint with id `nextId` appended, earlier ones untouched, counter +1, and the new id differs from every id issued before (so never reissued after a remove); distinct ids below the counter stay so |
| DroneMissionMap.MissionMap.HandleWaypointDrag | src/components/map/DroneMissionMap.tsx:86-91 | the list becomes `Dragged` of the old list; counter untouched; distinct ids below the counter stay so |
| DroneMissionMap.MissionMap.HandleWaypointRemove | src/components/map/DroneMissionMap.tsx:94-97 | the list becomes the old list without the id; counter untouched; distinct ids below the counter stay so |
| DroneMissionMap.MissionMap.OnMarkerContextMenu | src/components/map/DroneMissionMap.tsx:277-280 | callable only once the map has loaded; right-click removes the waypoint only when editable; otherwise the list is unchanged |
| DroneMissionMap.MissionMap.ClearAllWaypoints | src/components/map/DroneMissionMap.tsx:112-117 | editable: the list becomes empty (also when it already was); read-only: unchanged |
| DroneMissionMap.MissionMap.ClickClearButton | src/components/map/DroneMissionMap.tsx:122-133 | callable only once the map has loaded; a press sets a new list iff the map is editable and the list is non-empty; an editable map's list is then empty; a read-only map's list is unchanged |
| DroneMissionMap.MissionMap.SyncFromProp | src/components/map/DroneMissionMap.tsx:44-50 | the effect body: a new list is set iff the prop differs by value from the local list; afterwards the local list equals the prop; the counter is never touched |
| DroneMissionMap.MissionMap.RerenderWithoutProp | src/components/map/DroneMissionMap.tsx:24-50 | as written, a re-render of a mount without the prop runs the effect body with a new `[]`: the list becomes empty, and a new list is set iff it was non-empty |
| DroneMissionMap.MissionMap.Rerender | src/components/map/DroneMissionMap.tsx:44-50 | corrected: with the effect keyed on the prop's value, re-rendering with the value last seen changes nothing; a new value replaces the list as the effect body does |
| DroneMissionMap.ClickLostAsWritten | src/components/map/DroneMissionMap.tsx:24-83 | as written, an editable map mounted without the prop shows no waypoint after a click and one re-render, while the counter is 2 |
| DroneMissionMap.ClickKeptCorrected | src/components/map/DroneMissionMap.tsx:44-83 | corrected, the clicked waypoint (id 1) is still shown after two re-renders, and the counter is 2 |
| DroneMissionMap.MissionMap.EmitChange | src/components/map/DroneMissionMap.tsx:53-59 | the callback is called iff editable and a callback exists, and then receives the current local list; in read-only mode never |
| SurveyReports.FormatDuration | src/pages/SurveyReports.tsx:26-27 | a null duration is "N/A" |
| SurveyReports.JsRem | src/pages/SurveyReports.tsx:29 | JavaScript's remainder: sign of the dividend, magnitude below the divisor, and the dividend minus it is a multiple of the divisor, which fixes it for every dividend |
| SurveyReports.FormatDurationShape | src/pages/SurveyReports.tsx:28-30 | for minutes >= 0: hours*60 + mins = minutes and 0 <= mins < 60; under 60 the text is "{mins}m", otherwise "{hours}h {mins}m" |
| SurveyReports.FormatDurationRoundTrip | src/pages/SurveyReports.tsx:26-31 | the formatted text of a non-negative duration reads back as the same number of minutes |
| SurveyReports.FilteredMissionsSpec | src/pages/SurveyReports.tsx:44-53 | the result is an order-preserving subsequence; with month "all" a mission is kept iff its lower-cased name or facility includes the lower-cased term; otherwise iff it also has the chosen 1-based start month; a kept mission keeps all its copies |
| SurveyReports.MonthFilterSelectsMonth | src/pages/SurveyReports.tsx:51-52 | choosing month m keeps exactly the matching missions whose `getMonth() + 1` is m, each with all its copies |
| SurveyReports.EmptySearchKeepsAll | src/pages/SurveyReports.tsx:45-49 | an empty term with month "all" keeps every mission |
| SurveyReports.DistanceCell | src/pages/SurveyReports.tsx:198 | "N/A" iff the distance is null or 0; otherwise the number followed by " km" |
| SurveyReports.DroneCell | src/pages/SurveyReports.tsx:199 | "Not assigned" when the drone id is null or empty; otherwise the id |
| Text.IncludesIff | src/pages/SurveyReports.tsx:46-47 | `includes` holds iff the term occurs at some position of the text |
| FleetManagement.LocationsOnce | src/pages/FleetManagement.tsx:18 | a location is listed iff some drone has it, and then exactly once |
| FleetManagement.LocationsInFirstOccurrenceOrder | src/pages/FleetManagement.tsx:18 | locations are listed in the order in which drones first carry them |
| FleetManagement.FilteredDronesSpec | src/pages/FleetManagement.tsx:21-30 | the result is an order-preserving subsequence; a drone is kept iff name or id includes the term ignoring case, the status filter is "all" or its status, and the location filter is "all" or its location; a kept drone keeps all its copies |
| FleetManagement.NoFilterKeepsAll | src/pages/FleetManagement.tsx:22-29 | an empty search with both filters "all" keeps every drone |
| IndexPage.SortDescendingSpec | src/pages/Index.tsx:13-14 | the sorted copy is a permutation of the input, ordered by non-increasing start time |
| IndexPage.RecentMissionsSpec | src/pages/Index.tsx:13-15 | min(5, n) missions, latest first, all taken from the missions, and no mission left out starts later than one shown |
| IndexPage.MissionStatusDataSpec | src/pages/Index.tsx:18-23 | four slices in the order Completed, In Progress, Scheduled, Aborted, each carrying its status's counter from the stats record; every mission status has its slice |
| MissionMonitoring.ActiveMissionsSpec | src/pages/MissionMonitoring.tsx:18 | the active missions are an order-preserving subsequence holding exactly the missions in progress, each with all its copies |
| MissionMonitoring.InitialSelectedIdSpec | src/pages/MissionMonitoring.tsx:19 | the initial selection is the id of the first mission in progress, or "" when there is none |
| MissionMonitoring.FindById | src/pages/MissionMonitoring.tsx:22 | nothing is found iff no mission has the id; otherwise the first mission with that id |
| MissionMonitoring.InitialViewSpec | src/pages/MissionMonitoring.tsx:19-22 | with no mission id empty, the first render shows "No Active Missions" iff no mission is in progress |
| MissionMonitoring.MissionMonitor.constructor | src/pages/MissionMonitoring.tsx:18-20 | selection starts at the initial id and the mission is not paused |
| MissionMonitoring.MissionMonitor.SelectMission | src/pages/MissionMonitoring.tsx:47-50 | the selector sets the selected id and leaves the paused flag |
| MissionMonitoring.MissionMonitor.HandlePauseResume | src/pages/MissionMonitoring.tsx:24-30 | the paused flag flips; the toast title is "Mission Paused" if it was not paused and "Mission Resumed" otherwise, and the description names the selected mission and the new state; callable only while a mission is selected, since the control is rendered only then (68, 155-181) |
| MissionMonitoring.MissionMonitor.HandleAbort | src/pages/MissionMonitoring.tsx:32-38 | changes no state; the toast is titled "Mission Aborted" and names the selected mission; callable only while a mission is selected |
| DroneStatusCard.BatteryColour | src/components/fleet/DroneStatusCard.tsx:14-18 | success iff level > 70, warning iff 30 < level <= 70, danger iff level <= 30, so exactly one class per level |
| DroneStatusCard.AssignedMissionSpec | src/components/fleet/DroneStatusCard.tsx:29-31 | backend: "Mission #" and the id, "None" iff the id is absent or empty; fixture: its own field, "None" when that is null or empty |
| DroneStatusCard.DisplayId | src/components/fleet/DroneStatusCard.tsx:39 | backend records (those with `_id`) show `droneId`, fixture records show `id` |
| StatusBadge.StatusColourSpec | src/components/common/StatusBadge.tsx:13-33 | the class of each mission and drone status, and that any unlisted status gets the idle class while no listed one does |
| StatusBadge.StatusColourInjective | src/components/common/StatusBadge.tsx:14-31 | two listed statuses share a class iff they are the same status |
| StatusBadge.SizeClass | src/components/common/StatusBadge.tsx:36-46 | "sm" and "lg" get their own classes; "md", an absent size and any other value all get the md class |
| StatusBadge.BadgeText | src/components/common/StatusBadge.tsx:50 | the badge text is the status unchanged |
| Header.CurrentPageTitle | src/components/layout/Header.tsx:12-15 | the title is "Dashboard" or some item's name; it is the name of the first item whose path is the pathname, and "Dashboard" when none matches |
| Header.ShippedTitles | src/lib/mockData.ts:11-37 | with the shipped table "/" is "Dashboard", "/mission-planning" is "Mission Planning", an unknown path is "Dashboard" |
| UserJson.ParseStringify | src/contexts/AuthContext.tsx:40-48 | the stored JSON text of a user reads back as the same user |
| AuthContext.LayoutReaderReadsStringified | src/contexts/AuthContext.tsx:40-48 | a reader of the stored user text exists that reads back every text `login` writes |
| AuthContext.NullUserEntry | src/contexts/AuthContext.tsx:35-43 | with any parser that reads `null` as a non-user value, as `JSON.parse` does, a stored user entry `null` with "isLoggedIn" = "true" signs in without a user |
| AuthContext.LayoutReaderReadsNull | src/contexts/AuthContext.tsx:40 | the layout reader reads `null` as a non-user value |
| AuthContext.LoginThenReload | src/contexts/AuthContext.tsx:35-51 | with any parser that reads back what `JSON.stringify` writes, storage written by `login` restores the same user, signed in, on the next mount |
| AuthContext.LogoutThenReload | src/contexts/AuthContext.tsx:53-55 | after `logout` the next mount is signed out, and every other storage key is as before |
| AuthContext.AuthProvider.constructor | src/contexts/AuthContext.tsx:28-30 | initially unauthenticated, no user, loading |
| AuthContext.AuthProvider.Render | src/contexts/AuthContext.tsx:61-67 | the loading screen is shown iff loading; the children iff not |
| AuthContext.AuthProvider.InitFromStorage | src/contexts/AuthContext.tsx:33-44 | authenticated afterwards iff "isLoggedIn" is exactly "true", a non-empty "user" entry exists and it parses; the user is the parsed user record, or none for other JSON such as `null`; flag and user are in step except in that last case; loading ends; a parse that throws changes nothing |
| AuthContext.AuthProvider.Login | src/contexts/AuthContext.tsx:46-51 | storage gets "isLoggedIn" = "true" and the user's JSON; authenticated with that user; flag and user in step; callable only after loading, since the children render only then (61-67) |
| AuthContext.AuthProvider.Logout | src/contexts/AuthContext.tsx:53-59 | both keys removed and the rest untouched; unauthenticated with no user; route "/login"; callable only after loading |
| LoginPage.StoredUser | src/pages/Auth/LoginPage.tsx:51-55 | a login stores "John Smith" with the typed email; a registration stores the form's name and email; both with role "Facility Manager" |
| LoginPage.LoginPage.constructor | src/pages/Auth/LoginPage.tsx:12-28 | both forms start with their fields empty; not loading; no pending timer |
| LoginPage.LoginPage.HandleLoginChange | src/pages/Auth/LoginPage.tsx:30-35 | only the field named by the input changes |
| LoginPage.LoginPage.HandleRegisterChange | src/pages/Auth/LoginPage.tsx:37-42 | only the field named by the input changes |
| LoginPage.LoginPage.HandleLogin | src/pages/Auth/LoginPage.tsx:44-65 | callable only while idle, since the submit button is disabled while loading (151); loading starts and the one pending completion carries only the typed email; the password is never read; loading holds exactly while a completion is pending |
| LoginPage.LoginPage.HandleRegister | src/pages/Auth/LoginPage.tsx:67-99 | callable only while idle (button disabled at 212); different passwords: nothing pending, storage untouched, loading false; matching: loading and the one pending completion carries the form's name and email |
| LoginPage.LoginPage.FireNextTimer | src/pages/Auth/LoginPage.tsx:49-98 | the pending completion stores "isLoggedIn" = "true" and its user, ends loading and navigates to "/", leaving nothing pending; while idle nothing changes |
| LoginPage.RegisterThenReload | src/pages/Auth/LoginPage.tsx:83-89 | with any parser that reads back what `JSON.stringify` writes, after a completed registration the next mount of the session provider is signed in as the registered user with the manager role |

## Findings

| source | as written | input that shows it | evidently intended | confidence | as-written member | corrected member |
|---|---|---|---|---|---|---|
| src/components/map/DroneMissionMap.tsx:24 | `waypoints = []` is a new array on every render, and the sync effect is keyed on `[waypoints]` (44-50). A mount without the prop therefore runs the effect after every render, and the effect resets the local list to `[]`. | An editable map mounted without `waypoints`, as on the mission-planning page: a click at (10, 10), then a re-render. The list is `[]` again while the counter is 2. | The effect runs only when the prop's value changes, for example with a shared empty default, so added waypoints persist. | not executed; high | DroneMissionMap.ClickLostAsWritten | DroneMissionMap.MissionMap.Rerender |

## Left out

- Pixel-to-percentage conversion of a click, arrow midpoints and angles (`Math.atan2`), `toFixed` strings and chart percentages: floating-point geometry and formatting. Coordinates are abstract integers given to the click and drag steps.
- Non-integer numbers: the program's coordinates are click percentages and the fixture distances are fractional (3.2 km, for example). The model restricts coordinates, minutes and distances to integers, so how template strings print fractions is not modelled.
- Text.ToLower: maps only A-Z. JavaScript's `toLowerCase` folds all of Unicode.
- UserJson.Stringify escapes only quote and backslash, not control characters. UserJson.Parse reads only the layout `Stringify` writes, not every JSON text.
- `JSON.parse` itself: the session provider takes the parser as a parameter. The only thing required of it is that it reads back what `JSON.stringify` writes for a user.
- AuthContext.AuthProvider.InitFromStorage: a parsed object that is not a user record is held as no user. The program holds the object itself.
- AuthContext.AuthProvider.InitFromStorage: when the parse throws, the program's effect throws out of React. The model leaves the state unchanged and reports `false`.
- Date parsing and `Intl` formatting: a mission's start time arrives as its millisecond value and its `getMonth()` index.
- Markup, CSS classes other than the badge, battery and marker colours, the decorative map, help overlays and chart rendering.
- The map's loading timer is an explicit step. Its cancellation on unmount is not modelled.
- `handleMapClick` reads `nextId` from the render that created it. The model runs each handler on the current state, one render at a time.
- React's batching and dependency comparison. A handler reports through `updated` whether it set a new list; running the emit effect after it is the caller's step.
- Toasts of the sign-in page. The monitoring page's toasts are returned as values.
- `Math.random` flight hours, the card's location string and its model line.
- The sign-in page writes storage directly and does not call the provider's `login`. The model keeps the two apart; `AuthContext.LoginThenReload` and `LoginPage.RegisterThenReload` state what the next mount sees.
- IndexPage.SortDescendingSpec: does not state stability (equal start times keeping their original order), although `Insert` is written to keep it.
- Network client, routing, layout, sidebar, not-found page, mission table and chart components, mission-planning form, drone icon: no logic beyond wiring.
