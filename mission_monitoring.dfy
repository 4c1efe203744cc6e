/** The live-monitoring page: which missions can be watched, which one is
    selected, and the pause and abort controls. */
module MissionMonitoring {
  import opened Wrappers
  import opened Seqs
  import opened MockData

  /** `activeMissions = missions.filter(m => m.status === "In Progress")` */
  function ActiveMissions(missions: seq<MissionData>): seq<MissionData> {
    Filter(missions, (m: MissionData) => m.status == InProgress)
  }

  /** The active missions are exactly the missions in progress, in their
      original order, each with all its copies. */
  lemma ActiveMissionsSpec(missions: seq<MissionData>)
    ensures IsSubsequence(ActiveMissions(missions), missions)
    ensures forall m :: m in ActiveMissions(missions) <==> m in missions && m.status == InProgress
    ensures forall m :: Count(ActiveMissions(missions), m) == if m.status == InProgress then Count(missions, m) else 0
  {
    var keep := (m: MissionData) => m.status == InProgress;
    FilterIsSubsequence(missions, keep);
    forall m ensures m in Filter(missions, keep) <==> m in missions && keep(m) {
      FilterMembership(missions, keep, m);
    }
    forall m ensures Count(Filter(missions, keep), m) == if keep(m) then Count(missions, m) else 0 {
      FilterCount(missions, keep, m);
    }
  }

  /** Initial `selectedMissionId`: the first active mission's id, or "". */
  function InitialSelectedId(missions: seq<MissionData>): (r: string)
  {
    var active := ActiveMissions(missions);
    if |active| > 0 then active[0].id else ""
  }

  /** The first mission in progress, if any. */
  function FirstInProgress(missions: seq<MissionData>): (r: Option<MissionData>)
    ensures r.Some? ==> r.value in missions && r.value.status == InProgress
    ensures r.None? <==> forall m :: m in missions ==> m.status != InProgress
    decreases |missions|
  {
    if missions == [] then None
    else if missions[0].status == InProgress then Some(missions[0])
    else FirstInProgress(missions[1..])
  }

  /** The initial selection is the id of the first mission in progress, or
      the empty string when no mission is in progress. */
  lemma {:induction false} InitialSelectedIdSpec(missions: seq<MissionData>)
    ensures FirstInProgress(missions).Some? ==> InitialSelectedId(missions) == FirstInProgress(missions).value.id
    ensures FirstInProgress(missions).None? ==> InitialSelectedId(missions) == ""
    decreases |missions|
  {
    if missions != [] && missions[0].status != InProgress {
      InitialSelectedIdSpec(missions[1..]);
    }
  }

  /** `i` is the first position of `missions` holding a mission with `id`. */
  ghost predicate FirstWithId(missions: seq<MissionData>, id: string, i: int) {
    0 <= i < |missions| && missions[i].id == id && forall j :: 0 <= j < i ==> missions[j].id != id
  }

  /** `missions.find(m => m.id === id)` */
  function FindById(missions: seq<MissionData>, id: string): (r: Option<MissionData>)
    ensures r.None? <==> forall m :: m in missions ==> m.id != id
    ensures r.Some? ==> exists i :: FirstWithId(missions, id, i) && missions[i] == r.value
    decreases |missions|
  {
    if missions == [] then None
    else if missions[0].id == id then Some(missions[0])
    else
      var r := FindById(missions[1..], id);
      assert r.Some? ==> exists i :: FirstWithId(missions, id, i) && missions[i] == r.value by {
        if r.Some? {
          var i :| FirstWithId(missions[1..], id, i) && missions[1..][i] == r.value;
          assert missions[i + 1] == r.value;
          forall j | 0 <= j < i + 1 ensures missions[j].id != id {
            if j > 0 { assert missions[j] == missions[1..][j - 1]; }
          }
          assert FirstWithId(missions, id, i + 1);
        }
      }
      r
  }

  /** A toast notification. */
  datatype Toast = Toast(title: string, description: string)

  /** The page's state. */
  class MissionMonitor {
    const missions: seq<MissionData>
    var selectedMissionId: string
    var isPaused: bool

    constructor (missions: seq<MissionData>)
      ensures this.missions == missions
      ensures selectedMissionId == InitialSelectedId(missions) && !isPaused
    {
      this.missions := missions;
      selectedMissionId := InitialSelectedId(missions);
      isPaused := false;
    }

    /** `selectedMission` */
    function SelectedMission(): Option<MissionData>
      reads this
    {
      FindById(missions, selectedMissionId)
    }

    /** The page shows "No Active Missions" instead of the monitor. */
    predicate ShowsNoActiveMissions()
      reads this
    {
      SelectedMission().None?
    }

    /** The selector's `onValueChange`. */
    method SelectMission(id: string)
      modifies this
      ensures selectedMissionId == id && isPaused == old(isPaused)
    {
      selectedMissionId := id;
    }

    /** `handlePauseResume`: flips the flag; the toast reports the new state.
        The control is rendered only while a mission is selected. */
    method HandlePauseResume() returns (toast: Toast)
      requires SelectedMission().Some?
      modifies this
      ensures isPaused == !old(isPaused) && selectedMissionId == old(selectedMissionId)
      ensures toast.title == if old(isPaused) then "Mission Resumed" else "Mission Paused"
      ensures toast.description ==
        old(SelectedMission()).value.name + " has been " + (if old(isPaused) then "resumed" else "paused") + "."
    {
      toast := Toast(
        if isPaused then "Mission Resumed" else "Mission Paused",
        SelectedMission().value.name + " has been " + (if isPaused then "resumed" else "paused") + ".");
      isPaused := !isPaused;
    }

    /** `handleAbort`: changes no state, only raises a toast. The control is
        rendered only while a mission is selected. */
    method HandleAbort() returns (toast: Toast)
      requires SelectedMission().Some?
      ensures toast.title == "Mission Aborted"
      ensures toast.description == SelectedMission().value.name + " has been aborted."
    {
      toast := Toast("Mission Aborted", SelectedMission().value.name + " has been aborted.");
    }
  }

  /** On first render the monitor shows a mission exactly when one is in
      progress (given that no mission has the empty id). */
  lemma InitialViewSpec(missions: seq<MissionData>)
    requires forall m :: m in missions ==> m.id != ""
    ensures FindById(missions, InitialSelectedId(missions)).None? <==>
      forall m :: m in missions ==> m.status != InProgress
  {
    InitialSelectedIdSpec(missions);
  }
}
