/** One drone's card on the fleet page, which accepts either the fixture
    shape or the backend's shape of a drone record. */
module DroneStatusCard {
  import opened Wrappers
  import opened MockData

  /** The backend's drone record (the fields the card reads). */
  datatype BackendDrone = BackendDrone(
    mongoId: string,
    droneId: string,
    name: string,
    model: string,
    status: DroneStatus,
    batteryLevel: int,
    assignedMissionId: Option<string>)

  /** The card's input: a record with an `_id` key is backend data. */
  datatype CardDrone = Mock(drone: DroneData) | Backend(record: BackendDrone) {
    /** `'_id' in drone` */
    predicate IsBackendData() { Backend? }

    function BatteryLevel(): int {
      match this
      case Mock(d) => d.batteryLevel
      case Backend(b) => b.batteryLevel
    }
  }

  const Success := "bg-drone-success"
  const Warning := "bg-drone-warning"
  const Danger := "bg-drone-danger"

  /** `getBatteryColor`: every level gets exactly one of the three classes. */
  function BatteryColour(level: int): (r: string)
    ensures r == Success <==> level > 70
    ensures r == Warning <==> 30 < level <= 70
    ensures r == Danger <==> level <= 30
  {
    if level > 70 then Success
    else if level > 30 then Warning
    else Danger
  }

  /** `assignedMission` */
  function AssignedMission(d: CardDrone): string {
    match d
    case Backend(b) =>
      if b.assignedMissionId.Some? && b.assignedMissionId.value != "" then "Mission #" + b.assignedMissionId.value
      else "None"
    case Mock(m) =>
      if m.assignedMission.Some? && m.assignedMission.value != "" then m.assignedMission.value
      else "None"
  }

  /** Backend data shows "Mission #" and the id, or "None" exactly when no
      (non-empty) mission id is present; mock data shows its own field, or
      "None" when that is null or empty. */
  lemma AssignedMissionSpec(d: CardDrone)
    ensures d.Backend? ==>
      (AssignedMission(d) == "None" <==> d.record.assignedMissionId in {None, Some("")})
    ensures d.Backend? && d.record.assignedMissionId.Some? && d.record.assignedMissionId.value != "" ==>
      AssignedMission(d) == "Mission #" + d.record.assignedMissionId.value
    ensures d.Mock? && (d.drone.assignedMission == None || d.drone.assignedMission == Some("")) ==>
      AssignedMission(d) == "None"
    ensures d.Mock? && d.drone.assignedMission.Some? && d.drone.assignedMission.value != "" ==>
      AssignedMission(d) == d.drone.assignedMission.value
  {
    if d.Backend? && d.record.assignedMissionId.Some? && d.record.assignedMissionId.value != "" {
      assert AssignedMission(d)[0] == 'M';
    }
  }

  /** `displayId`: the backend's `droneId`, otherwise the fixture's `id`. */
  function DisplayId(d: CardDrone): (r: string)
    ensures d.IsBackendData() ==> r == d.record.droneId
    ensures !d.IsBackendData() ==> r == d.drone.id
  {
    match d
    case Backend(b) => b.droneId
    case Mock(m) => m.id
  }
}
