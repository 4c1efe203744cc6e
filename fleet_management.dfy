/** The fleet page: the list of distinct drone locations offered by the
    location selector, and the search/status/location filter. */
module FleetManagement {
  import opened Text
  import opened Seqs
  import opened MockData

  /** `drones.map(drone => drone.location)` */
  function LocationsOf(drones: seq<DroneData>): (r: seq<string>)
    ensures |r| == |drones|
    ensures forall i :: 0 <= i < |drones| ==> r[i] == drones[i].location
    decreases |drones|
  {
    if drones == [] then [] else [drones[0].location] + LocationsOf(drones[1..])
  }

  /** `locations = Array.from(new Set(drones.map(d => d.location)))` */
  function Locations(drones: seq<DroneData>): seq<string> {
    Distinct(LocationsOf(drones))
  }

  /** Each drone location is listed exactly once, and nothing else is. */
  lemma LocationsOnce(drones: seq<DroneData>, location: string)
    ensures location in Locations(drones) <==> exists i :: 0 <= i < |drones| && drones[i].location == location
    ensures (exists i :: 0 <= i < |drones| && drones[i].location == location) ==>
      Count(Locations(drones), location) == 1
  {
    DistinctSameElements(LocationsOf(drones), location);
    DistinctOnce(LocationsOf(drones), location);
    var ls := LocationsOf(drones);
    if location in ls {
      var i :| 0 <= i < |ls| && ls[i] == location;
      assert drones[i].location == location;
    }
  }

  /** Locations are listed in the order in which drones first carry them. */
  lemma LocationsInFirstOccurrenceOrder(drones: seq<DroneData>, i: int, j: int)
    requires 0 <= i < j < |Locations(drones)|
    ensures Locations(drones)[i] in LocationsOf(drones) && Locations(drones)[j] in LocationsOf(drones)
    ensures FirstIndex(LocationsOf(drones), Locations(drones)[i]) < FirstIndex(LocationsOf(drones), Locations(drones)[j])
  {
    DistinctFirstOccurrenceOrder(LocationsOf(drones), i, j);
  }

  /** The `filteredDrones` callback. */
  predicate KeepDrone(searchTerm: string, statusFilter: string, locationFilter: string, drone: DroneData) {
    var matchesSearch :=
      Includes(ToLower(drone.name), ToLower(searchTerm)) || Includes(ToLower(drone.id), ToLower(searchTerm));
    var matchesStatus := statusFilter == "all" || drone.status.Name() == statusFilter;
    var matchesLocation := locationFilter == "all" || drone.location == locationFilter;
    matchesSearch && matchesStatus && matchesLocation
  }

  /** `filteredDrones` */
  function FilteredDrones(drones: seq<DroneData>, searchTerm: string, statusFilter: string, locationFilter: string): seq<DroneData> {
    Filter(drones, (d: DroneData) => KeepDrone(searchTerm, statusFilter, locationFilter, d))
  }

  /** The filtered drones are an order-preserving subsequence; a drone is
      kept exactly when its name or id contains the term (ignoring case), the
      status filter is "all" or its status, and the location filter is "all"
      or its location; a kept drone keeps all its copies. */
  lemma FilteredDronesSpec(drones: seq<DroneData>, searchTerm: string, statusFilter: string, locationFilter: string)
    ensures IsSubsequence(FilteredDrones(drones, searchTerm, statusFilter, locationFilter), drones)
    ensures forall d :: d in FilteredDrones(drones, searchTerm, statusFilter, locationFilter) <==>
      && d in drones
      && (Includes(ToLower(d.name), ToLower(searchTerm)) || Includes(ToLower(d.id), ToLower(searchTerm)))
      && (statusFilter == "all" || d.status.Name() == statusFilter)
      && (locationFilter == "all" || d.location == locationFilter)
    ensures forall d :: Count(FilteredDrones(drones, searchTerm, statusFilter, locationFilter), d) == if KeepDrone(searchTerm, statusFilter, locationFilter, d) then Count(drones, d) else 0
  {
    var keep := (d: DroneData) => KeepDrone(searchTerm, statusFilter, locationFilter, d);
    FilterIsSubsequence(drones, keep);
    forall d ensures d in Filter(drones, keep) <==> d in drones && keep(d) {
      FilterMembership(drones, keep, d);
    }
    forall d ensures Count(Filter(drones, keep), d) == if keep(d) then Count(drones, d) else 0 {
      FilterCount(drones, keep, d);
    }
  }

  /** No search and both filters on "all" show the whole fleet. */
  lemma NoFilterKeepsAll(drones: seq<DroneData>)
    ensures FilteredDrones(drones, "", "all", "all") == drones
  {
    var keep := (d: DroneData) => KeepDrone("", "all", "all", d);
    forall i | 0 <= i < |drones| ensures keep(drones[i]) {
      IncludesEmpty(ToLower(drones[i].name));
    }
    FilterKeepsAll(drones, keep);
  }
}
