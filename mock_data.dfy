/** The record shapes of the dashboard's fixture module and its navigation
    table. Dates arrive already parsed (see `Timestamp`). */
module MockData {
  import opened Wrappers

  /** `MissionStatus`: the four values a mission's status may take. */
  datatype MissionStatus = Completed | InProgress | Scheduled | Aborted {
    /** The string the status union type carries. */
    function Name(): string {
      match this
      case Completed => "Completed"
      case InProgress => "In Progress"
      case Scheduled => "Scheduled"
      case Aborted => "Aborted"
    }
  }

  /** `DroneStatus`: the four values a drone's status may take. */
  datatype DroneStatus = Idle | Flying | Charging | Maintenance {
    function Name(): string {
      match this
      case Idle => "Idle"
      case Flying => "Flying"
      case Charging => "Charging"
      case Maintenance => "Maintenance"
    }
  }

  datatype PatternType = Grid | Crosshatch | Perimeter

  /** A mission start time as the pages read it through `new Date(...)`:
      `millis` is `getTime()` and `monthIndex` is `getMonth()` (0 = January). */
  datatype Timestamp = Timestamp(millis: int, monthIndex: int)

  /** `MissionData` */
  datatype MissionData = MissionData(
    id: string,
    name: string,
    facility: string,
    status: MissionStatus,
    droneId: Option<string>,
    startTime: Timestamp,
    endTime: Option<Timestamp>,
    duration: Option<int>,
    altitude: int,
    pattern: PatternType,
    sensorType: string,
    distanceFlown: Option<int>,
    progress: int,
    createdBy: string)

  /** `DroneData` (flight hours are shown with one decimal; see README). */
  datatype DroneData = DroneData(
    id: string,
    name: string,
    location: string,
    batteryLevel: int,
    status: DroneStatus,
    assignedMission: Option<string>,
    lastMaintenance: string,
    model: string,
    flightHours: int)

  /** `StatsData`: the dashboard counters. */
  datatype StatsData = StatsData(
    todayMissions: int,
    monthMissions: int,
    totalMissions: int,
    totalDrones: int,
    ongoingMissions: int,
    completedMissions: int,
    abortedMissions: int,
    scheduledMissions: int)

  /** One entry of the sidebar navigation (the icon is left out). */
  datatype NavItem = NavItem(name: string, path: string)

  /** `navigationItems` */
  const NavigationItems: seq<NavItem> := [
    NavItem("Dashboard", "/"),
    NavItem("Mission Planning", "/mission-planning"),
    NavItem("Fleet Management", "/fleet-management"),
    NavItem("Mission Monitoring", "/mission-monitoring"),
    NavItem("Survey Reports", "/survey-reports")
  ]
}
