/** The survey-reports page: the duration formatter, the mission search and
    month filter, and the fallbacks of the report table's cells. */
module SurveyReports {
  import opened Wrappers
  import opened Text
  import opened Seqs
  import opened MockData

  /** JavaScript's `%`: the remainder takes the sign of the dividend. */
  function JsRem(a: int, b: int): (r: int)
    requires b > 0
    ensures a >= 0 ==> 0 <= r < b
    ensures a < 0 ==> -b < r <= 0
    ensures a >= 0 ==> r == a % b
    ensures (a - r) % b == 0
  {
    RemainderDifference(if a >= 0 then a else -a, b);
    if a >= 0 then a % b else -((-a) % b)
  }

  /** Taking the remainder off a number, or adding it to the negated
      number, leaves a multiple of the divisor. */
  lemma RemainderDifference(n: int, b: int)
    requires b > 0
    ensures (n - n % b) % b == 0
    ensures (-n + n % b) % b == 0
  {
    assert n - n % b == (n / b) * b;
    assert -n + n % b == (-(n / b)) * b;
    MultipleHasNoRemainder(n / b, b);
    MultipleHasNoRemainder(-(n / b), b);
  }

  /** A multiple of `b` leaves no remainder. */
  lemma MultipleHasNoRemainder(k: int, b: int)
    requires b > 0
    ensures (k * b) % b == 0
  {
    var q := (k * b) / b;
    assert (k * b) % b == (k - q) * b;
    ProductBounds(k - q, b);
  }

  /** A non-zero multiple of `b` is at least `b` away from zero. */
  lemma ProductBounds(d: int, b: int)
    requires b > 0
    ensures d >= 1 ==> d * b >= b
    ensures d <= -1 ==> d * b <= -b
  {
  }

  /** `formatDuration(minutes)`. `Math.floor(minutes / 60)` is Dafny's `/`
      for a positive divisor. */
  function FormatDuration(minutes: Option<int>): (r: string)
    ensures minutes == None ==> r == "N/A"
  {
    match minutes
    case None => "N/A"
    case Some(m) =>
      var hours := m / 60;
      var mins := JsRem(m, 60);
      if hours > 0 then IntToString(hours) + "h " + IntToString(mins) + "m"
      else IntToString(mins) + "m"
  }

  /** For a non-negative number of minutes: the hour and minute parts
      recombine to the input, the minute part is below 60, and the hour part
      is printed only from 60 minutes on. */
  lemma FormatDurationShape(minutes: int)
    requires minutes >= 0
    ensures (minutes / 60) * 60 + JsRem(minutes, 60) == minutes
    ensures 0 <= JsRem(minutes, 60) < 60
    ensures minutes < 60 ==> FormatDuration(Some(minutes)) == NatToString(minutes) + "m"
    ensures minutes >= 60 ==>
      FormatDuration(Some(minutes)) == NatToString(minutes / 60) + "h " + NatToString(minutes % 60) + "m"
  {
  }

  /** Position of the first `c` in `s`, or `|s|` when there is none. */
  function IndexOf(s: string, c: char): (k: nat)
    ensures k <= |s|
    ensures forall i :: 0 <= i < k ==> s[i] != c
    ensures k < |s| ==> s[k] == c
    decreases |s|
  {
    if s == [] then 0 else if s[0] == c then 0 else 1 + IndexOf(s[1..], c)
  }

  /** Reads a duration the way a reader of the report would: "{h}h {m}m" or
      "{m}m". */
  function ParseDuration(s: string): Option<int> {
    if |s| < 2 || s[|s| - 1] != 'm' then None
    else
      var body := s[..|s| - 1];
      var k := IndexOf(body, 'h');
      if k == |body| then ParseInt(body)
      else if k + 1 < |body| && body[k + 1] == ' ' then
        match ParseInt(body[..k])
        case None => None
        case Some(h) =>
          match ParseInt(body[k + 2..])
          case None => None
          case Some(m) => Some(h * 60 + m)
      else None
  }

  lemma DigitsHaveNoLetter(n: nat, c: char)
    requires !IsDigit(c)
    ensures IndexOf(NatToString(n), c) == |NatToString(n)|
  {
  }

  /** A formatted non-negative duration reads back as the same number of
      minutes: the display loses nothing. */
  lemma FormatDurationRoundTrip(minutes: int)
    requires minutes >= 0
    ensures ParseDuration(FormatDuration(Some(minutes))) == Some(minutes)
  {
    FormatDurationShape(minutes);
    var s := FormatDuration(Some(minutes));
    if minutes < 60 {
      var a := NatToString(minutes);
      assert s[..|s| - 1] == a;
      DigitsHaveNoLetter(minutes, 'h');
      ParseIntToString(minutes);
    } else {
      var a, b := NatToString(minutes / 60), NatToString(minutes % 60);
      var body := a + "h " + b;
      assert s == body + "m";
      assert s[..|s| - 1] == body;
      DigitsHaveNoLetter(minutes / 60, 'h');
      assert IndexOf(body, 'h') == |a| by {
        assert body[|a|] == 'h';
        forall i | 0 <= i < |a| ensures body[i] != 'h' { assert body[i] == a[i]; }
      }
      assert body[..|a|] == a;
      assert body[|a| + 2..] == b;
      ParseIntToString(minutes / 60);
      ParseIntToString(minutes % 60);
    }
  }

  /** The search test: the lower-cased name or facility includes the
      lower-cased term. */
  predicate MatchesSearch(mission: MissionData, searchTerm: string) {
    Includes(ToLower(mission.name), ToLower(searchTerm)) ||
    Includes(ToLower(mission.facility), ToLower(searchTerm))
  }

  /** `new Date(mission.startTime).getMonth() + 1` */
  function MissionMonth(mission: MissionData): int {
    mission.startTime.monthIndex + 1
  }

  /** The `filteredMissions` callback. */
  predicate KeepMission(searchTerm: string, monthFilter: string, mission: MissionData) {
    if monthFilter == "all" then MatchesSearch(mission, searchTerm)
    else MatchesSearch(mission, searchTerm) && IntToString(MissionMonth(mission)) == monthFilter
  }

  /** `filteredMissions` */
  function FilteredMissions(missions: seq<MissionData>, searchTerm: string, monthFilter: string): seq<MissionData> {
    Filter(missions, (m: MissionData) => KeepMission(searchTerm, monthFilter, m))
  }

  /** The filtered list is an order-preserving subsequence of the missions;
      with month "all" a mission is kept exactly when it matches the search,
      otherwise exactly when it also starts in the chosen month; a kept
      mission keeps all its copies. */
  lemma FilteredMissionsSpec(missions: seq<MissionData>, searchTerm: string, monthFilter: string)
    ensures IsSubsequence(FilteredMissions(missions, searchTerm, monthFilter), missions)
    ensures monthFilter == "all" ==> forall m ::
      m in FilteredMissions(missions, searchTerm, monthFilter) <==> m in missions && MatchesSearch(m, searchTerm)
    ensures monthFilter != "all" ==> forall m ::
      m in FilteredMissions(missions, searchTerm, monthFilter) <==>
        m in missions && MatchesSearch(m, searchTerm) && IntToString(MissionMonth(m)) == monthFilter
    ensures forall m :: Count(FilteredMissions(missions, searchTerm, monthFilter), m) == if KeepMission(searchTerm, monthFilter, m) then Count(missions, m) else 0
  {
    var keep := (m: MissionData) => KeepMission(searchTerm, monthFilter, m);
    FilterIsSubsequence(missions, keep);
    forall m ensures m in Filter(missions, keep) <==> m in missions && keep(m) {
      FilterMembership(missions, keep, m);
    }
    forall m ensures Count(Filter(missions, keep), m) == if keep(m) then Count(missions, m) else 0 {
      FilterCount(missions, keep, m);
    }
  }

  /** Choosing month `month` in the selector keeps exactly the matching
      missions whose 1-based start month is `month`, each with all its copies. */
  lemma MonthFilterSelectsMonth(missions: seq<MissionData>, searchTerm: string, month: int)
    ensures forall m :: m in FilteredMissions(missions, searchTerm, IntToString(month)) <==>
      m in missions && MatchesSearch(m, searchTerm) && MissionMonth(m) == month
    ensures forall m :: Count(FilteredMissions(missions, searchTerm, IntToString(month)), m) == if MatchesSearch(m, searchTerm) && MissionMonth(m) == month then Count(missions, m) else 0
  {
    var t := IntToString(month);
    assert t != "all" by { assert t[0] == '-' || IsDigit(t[0]); }
    FilteredMissionsSpec(missions, searchTerm, t);
    forall m ensures IntToString(MissionMonth(m)) == t <==> MissionMonth(m) == month {
      IntToStringInjective(MissionMonth(m), month);
    }
  }

  /** An empty search with month "all" keeps every mission. */
  lemma EmptySearchKeepsAll(missions: seq<MissionData>)
    ensures FilteredMissions(missions, "", "all") == missions
  {
    var keep := (m: MissionData) => KeepMission("", "all", m);
    forall i | 0 <= i < |missions| ensures keep(missions[i]) {
      IncludesEmpty(ToLower(missions[i].name));
    }
    FilterKeepsAll(missions, keep);
  }

  /** The distance cell: `distanceFlown ? `${distanceFlown} km` : "N/A"`. */
  function DistanceCell(distanceFlown: Option<int>): (r: string)
    ensures r == "N/A" <==> distanceFlown == None || distanceFlown == Some(0)
    ensures distanceFlown.Some? && distanceFlown.value != 0 ==>
      r == IntToString(distanceFlown.value) + " km"
  {
    match distanceFlown
    case Some(d) => if d != 0 then IntToString(d) + " km" else "N/A"
    case None => "N/A"
  }

  /** The drone cell: `droneId || "Not assigned"` (an empty id is falsy too). */
  function DroneCell(droneId: Option<string>): (r: string)
    ensures droneId == None || droneId == Some("") ==> r == "Not assigned"
    ensures droneId.Some? && droneId.value != "" ==> r == droneId.value
  {
    match droneId
    case Some(id) => if id != "" then id else "Not assigned"
    case None => "Not assigned"
  }
}
