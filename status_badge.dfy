/** The status badge: the colour class per mission or drone status, the
    size class, and the text shown. */
module StatusBadge {
  import opened Wrappers
  import opened MockData

  const IdleClass := "bg-drone-idle text-white"

  /** `getStatusColor` */
  function StatusColour(status: string): string {
    match status
    case "Completed" => "bg-drone-success text-white"
    case "In Progress" => "bg-drone-teal text-white"
    case "Scheduled" => "bg-drone-navy text-white"
    case "Aborted" => "bg-drone-danger text-white"
    case "Flying" => "bg-drone-teal text-white animate-pulse-slow"
    case "Charging" => "bg-drone-charging text-white"
    case "Maintenance" => "bg-drone-warning text-white"
    case _ => IdleClass
  }

  /** The statuses the switch lists before its fallback. */
  const ListedStatuses: set<string> :=
    {"Completed", "In Progress", "Scheduled", "Aborted", "Flying", "Charging", "Maintenance"}

  /** Mission statuses: Completed is success, In Progress teal, Scheduled
      navy, Aborted danger; drone statuses: Flying teal with a pulse,
      Charging the charging class, Maintenance warning, Idle the idle class;
      any other string falls back to idle. Distinct listed statuses get
      distinct classes. */
  lemma StatusColourSpec(status: string)
    ensures StatusColour(Completed.Name()) == "bg-drone-success text-white"
    ensures StatusColour(InProgress.Name()) == "bg-drone-teal text-white"
    ensures StatusColour(Scheduled.Name()) == "bg-drone-navy text-white"
    ensures StatusColour(Aborted.Name()) == "bg-drone-danger text-white"
    ensures StatusColour(Flying.Name()) == "bg-drone-teal text-white animate-pulse-slow"
    ensures StatusColour(Charging.Name()) == "bg-drone-charging text-white"
    ensures StatusColour(Maintenance.Name()) == "bg-drone-warning text-white"
    ensures StatusColour(Idle.Name()) == IdleClass
    ensures status !in ListedStatuses ==> StatusColour(status) == IdleClass
    ensures status in ListedStatuses ==> StatusColour(status) != IdleClass
  {
  }

  /** Two listed statuses share a class only when they are the same status. */
  lemma StatusColourInjective(a: string, b: string)
    requires a in ListedStatuses && b in ListedStatuses
    ensures StatusColour(a) == StatusColour(b) <==> a == b
  {
  }

  const SmallClass := "px-2 py-0.5 text-xs"
  const LargeClass := "px-3 py-1 text-sm"
  const MediumClass := "px-2.5 py-0.5 text-xs"

  /** `getSizeClass` with `size` defaulting to "md" when the prop is absent. */
  function SizeClass(size: Option<string>): (r: string)
    ensures r == SmallClass <==> size == Some("sm")
    ensures r == LargeClass <==> size == Some("lg")
    ensures r == MediumClass <==> size != Some("sm") && size != Some("lg")
  {
    match size.GetOr("md")
    case "sm" => SmallClass
    case "lg" => LargeClass
    case _ => MediumClass
  }

  /** The badge's text is the status unchanged. */
  function BadgeText(status: string): (r: string)
    ensures r == status
  {
    status
  }
}
