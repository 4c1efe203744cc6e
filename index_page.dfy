/** The dashboard page: the five most recent missions and the data of the
    mission-status chart. */
module IndexPage {
  import opened MockData

  /** Ordered by non-increasing `key`. */
  ghost predicate Descending<T>(xs: seq<T>, key: T -> int) {
    forall i, j :: 0 <= i < j < |xs| ==> key(xs[i]) >= key(xs[j])
  }

  /** Places `x` before the first element whose key is not above its own,
      so that equal keys keep their original order. */
  function Insert<T>(x: T, sorted: seq<T>, key: T -> int): (r: seq<T>)
    ensures multiset(r) == multiset(sorted) + multiset{x}
    decreases |sorted|
  {
    if sorted == [] || key(x) >= key(sorted[0]) then [x] + sorted
    else
      assert sorted == [sorted[0]] + sorted[1..];
      [sorted[0]] + Insert(x, sorted[1..], key)
  }

  lemma {:induction false} InsertKeepsOrder<T>(x: T, sorted: seq<T>, key: T -> int)
    requires Descending(sorted, key)
    ensures Descending(Insert(x, sorted, key), key)
    decreases |sorted|
  {
    if sorted != [] && key(x) < key(sorted[0]) {
      InsertKeepsOrder(x, sorted[1..], key);
      HeadDominates(x, sorted, key);
      ConsDescending(sorted[0], Insert(x, sorted[1..], key), key);
    }
  }

  /** Inserting below the head leaves nothing after it with a larger key. */
  lemma HeadDominates<T>(x: T, sorted: seq<T>, key: T -> int)
    requires Descending(sorted, key) && sorted != [] && key(x) < key(sorted[0])
    ensures forall k :: 0 <= k < |Insert(x, sorted[1..], key)| ==>
      key(Insert(x, sorted[1..], key)[k]) <= key(sorted[0])
  {
    var rest := Insert(x, sorted[1..], key);
    forall k | 0 <= k < |rest| ensures key(rest[k]) <= key(sorted[0]) {
      var y := rest[k];
      assert y in multiset(rest);
      if y != x {
        assert y in multiset(sorted[1..]);
        var j :| 0 <= j < |sorted[1..]| && sorted[1..][j] == y;
        assert sorted[j + 1] == y;
      }
    }
  }

  /** A head whose key bounds every later key extends a descending list. */
  lemma ConsDescending<T>(h: T, xs: seq<T>, key: T -> int)
    requires Descending(xs, key)
    requires forall k :: 0 <= k < |xs| ==> key(xs[k]) <= key(h)
    ensures Descending([h] + xs, key)
  {
    var r := [h] + xs;
    forall i, j | 0 <= i < j < |r| ensures key(r[i]) >= key(r[j]) {
      assert r[j] == xs[j - 1];
      if i > 0 { assert r[i] == xs[i - 1]; }
    }
  }

  /** A stable sort by non-increasing `key`, as `Array.prototype.sort` with
      the comparator `(a, b) => key(b) - key(a)` performs it. */
  function SortDescending<T>(xs: seq<T>, key: T -> int): (r: seq<T>)
    ensures multiset(r) == multiset(xs)
    decreases |xs|
  {
    if xs == [] then []
    else
      assert xs == [xs[0]] + xs[1..];
      Insert(xs[0], SortDescending(xs[1..], key), key)
  }

  /** The sorted copy is a permutation of the input, in descending order. */
  lemma {:induction false} SortDescendingSpec<T>(xs: seq<T>, key: T -> int)
    ensures multiset(SortDescending(xs, key)) == multiset(xs)
    ensures |SortDescending(xs, key)| == |xs|
    ensures Descending(SortDescending(xs, key), key)
    decreases |xs|
  {
    assert |multiset(SortDescending(xs, key))| == |multiset(xs)|;
    if xs != [] {
      SortDescendingSpec(xs[1..], key);
      InsertKeepsOrder(xs[0], SortDescending(xs[1..], key), key);
    }
  }

  /** `new Date(m.startTime).getTime()` */
  function StartMillis(m: MissionData): int {
    m.startTime.millis
  }

  /** `recentMissions = [...missions].sort(latest first).slice(0, 5)` */
  function RecentMissions(missions: seq<MissionData>): seq<MissionData> {
    var sorted := SortDescending(missions, StartMillis);
    if |sorted| <= 5 then sorted else sorted[..5]
  }

  /** In a descending list, everything from position `k` on has a key no
      greater than anything before it. */
  lemma SplitDominates<T>(sorted: seq<T>, key: T -> int, k: nat, x: T, y: T)
    requires Descending(sorted, key) && k <= |sorted|
    requires x in sorted[k..] && y in sorted[..k]
    ensures key(x) <= key(y)
  {
    var a :| 0 <= a < |sorted[k..]| && sorted[k..][a] == x;
    var b :| 0 <= b < |sorted[..k]| && sorted[..k][b] == y;
    assert sorted[k + a] == x && sorted[b] == y;
  }

  /** The first `k` elements of a descending permutation of `xs` are a
      descending part of `xs`, and nothing left out ranks above them. */
  lemma TopPrefix<T>(xs: seq<T>, sorted: seq<T>, key: T -> int, k: nat)
    requires multiset(sorted) == multiset(xs) && Descending(sorted, key) && k <= |sorted|
    ensures Descending(sorted[..k], key)
    ensures multiset(sorted[..k]) <= multiset(xs)
    ensures forall x, y :: x in multiset(xs) - multiset(sorted[..k]) && y in sorted[..k] ==> key(x) <= key(y)
  {
    var shown, hidden := sorted[..k], sorted[k..];
    assert sorted == shown + hidden;
    assert multiset(xs) == multiset(shown) + multiset(hidden);
    forall x, y | x in multiset(xs) - multiset(shown) && y in shown
      ensures key(x) <= key(y)
    {
      assert x in multiset(hidden);
      SplitDominates(sorted, key, k, x, y);
    }
  }

  /** At most five missions, latest first, all taken from `missions`, and no
      mission left out starts later than one shown. */
  lemma RecentMissionsSpec(missions: seq<MissionData>)
    ensures |RecentMissions(missions)| == if |missions| < 5 then |missions| else 5
    ensures Descending(RecentMissions(missions), StartMillis)
    ensures multiset(RecentMissions(missions)) <= multiset(missions)
    ensures forall x, y :: x in multiset(missions) - multiset(RecentMissions(missions)) && y in RecentMissions(missions) ==>
      StartMillis(x) <= StartMillis(y)
  {
    var sorted := SortDescending(missions, StartMillis);
    SortDescendingSpec(missions, StartMillis);
    var k := if |sorted| <= 5 then |sorted| else 5;
    assert RecentMissions(missions) == sorted[..k];
    TopPrefix(missions, sorted, StartMillis, k);
  }

  /** One slice of the mission-status chart (its colour is left out). */
  datatype StatusSlice = StatusSlice(name: string, value: int)

  /** `missionStatusData` */
  function MissionStatusData(stats: StatsData): seq<StatusSlice> {
    [
      StatusSlice("Completed", stats.completedMissions),
      StatusSlice("In Progress", stats.ongoingMissions),
      StatusSlice("Scheduled", stats.scheduledMissions),
      StatusSlice("Aborted", stats.abortedMissions)
    ]
  }

  /** The counter the stats record keeps for missions in `status`. */
  function StatusCount(stats: StatsData, status: MissionStatus): int {
    match status
    case Completed => stats.completedMissions
    case InProgress => stats.ongoingMissions
    case Scheduled => stats.scheduledMissions
    case Aborted => stats.abortedMissions
  }

  /** The chart has four slices, one per mission status, in the order
      Completed, In Progress, Scheduled, Aborted, each carrying that
      status's counter. */
  lemma MissionStatusDataSpec(stats: StatsData)
    ensures |MissionStatusData(stats)| == 4
    ensures forall i :: 0 <= i < 4 ==>
      MissionStatusData(stats)[i].name == [Completed, InProgress, Scheduled, Aborted][i].Name() &&
      MissionStatusData(stats)[i].value == StatusCount(stats, [Completed, InProgress, Scheduled, Aborted][i])
    ensures forall s: MissionStatus :: StatusSlice(s.Name(), StatusCount(stats, s)) in MissionStatusData(stats)
  {
    var data := MissionStatusData(stats);
    forall s: MissionStatus ensures StatusSlice(s.Name(), StatusCount(stats, s)) in data {
      match s
      case Completed => assert data[0] == StatusSlice(s.Name(), StatusCount(stats, s));
      case InProgress => assert data[1] == StatusSlice(s.Name(), StatusCount(stats, s));
      case Scheduled => assert data[2] == StatusSlice(s.Name(), StatusCount(stats, s));
      case Aborted => assert data[3] == StatusSlice(s.Name(), StatusCount(stats, s));
    }
  }
}
