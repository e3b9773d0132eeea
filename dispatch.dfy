/** The nearest-unit allocator (`DispatchEngine`): a capability table from
    incident type to acceptable vehicle types, the nearest dispatchable
    candidate (first one on ties), and the dispatch itself, which requests a
    route, activates the green corridor over the route's cells, reserves the
    vehicle, assigns the incident, and emits the radio exchange and the
    dispatch events. */
module Dispatch {
  import Common
  import opened Geo
  import opened Store
  import opened RouteService
  import HexService
  import Corridor
  import HexLabels
  import RadioComms

  /** A `DispatchEngine`: its route service, its cell index and the distance
      function (`haversine_km`). */
  datatype Engine = Engine(routes: RouteService.Service, hexes: HexService.Service, distance: Distance)

  /** `_nearest_vehicle`'s if-chain on the lower-cased incident type. */
  function WantedTypes(incidentType: string): (wanted: set<VehicleType>)
    ensures wanted != {}
  {
    var t := Common.Lower(incidentType);
    if t in {"theft", "suspicious", "public_disturbance", "public_safety_issue"} then {Police}
    else if t in {"road_accident", "medical"} then {Ambulance}
    else if t == "fire" then {Fire}
    else if t in {"garbage_issue", "garbage", "sanitation"} then {Municipal}
    else if t in {"road_damage", "pothole_damage"} then {Municipal}
    else {Police, Ambulance, Fire, Municipal}
  }

  /** The capability table, case by case: the named types want one vehicle type,
      every other type accepts all four. */
  lemma CapabilityTable(incidentType: string)
    ensures var t := Common.Lower(incidentType);
      && (t in {"theft", "suspicious", "public_disturbance", "public_safety_issue"} <==> WantedTypes(incidentType) == {Police})
      && (t in {"road_accident", "medical"} <==> WantedTypes(incidentType) == {Ambulance})
      && (t == "fire" <==> WantedTypes(incidentType) == {Fire})
      && (t in {"garbage_issue", "garbage", "sanitation", "road_damage", "pothole_damage"} <==> WantedTypes(incidentType) == {Municipal})
      && (|WantedTypes(incidentType)| == 1 || WantedTypes(incidentType) == {Police, Ambulance, Fire, Municipal})
  {
  }

  /** Incidents are stored with the normalised types: of those, only "fire" and
      "medical" reach a named row; "accident", "crime" and "civic" fall through
      to "any vehicle". */
  lemma StoredTypesWanted()
    ensures WantedTypes("fire") == {Fire}
    ensures WantedTypes("medical") == {Ambulance}
    ensures WantedTypes("accident") == {Police, Ambulance, Fire, Municipal}
    ensures WantedTypes("crime") == {Police, Ambulance, Fire, Municipal}
    ensures WantedTypes("civic") == {Police, Ambulance, Fire, Municipal}
  {
    assert Common.Lower("fire") == "fire";
    assert Common.Lower("medical") == "medical";
    assert Common.Lower("accident") == "accident";
    assert Common.Lower("crime") == "crime";
    assert Common.Lower("civic") == "civic";
  }

  /** The `WHERE status IN ('available', 'patrolling') AND type = ANY(wanted)` filter. */
  predicate Dispatchable(v: Vehicle, wanted: set<VehicleType>)
  {
    (v.status == "available" || v.status == "patrolling") && v.vtype in wanted
  }

  /** The ids the candidate query returns: stored vehicles of a wanted type
      that are available or patrolling; none when no type is wanted. */
  function CandidateIds(vehicles: map<VehicleId, Vehicle>, wanted: set<VehicleType>): (ids: set<VehicleId>)
    ensures ids <= vehicles.Keys
    ensures forall id :: id in ids ==> vehicles[id].vtype in wanted && vehicles[id].status in {"available", "patrolling"}
    ensures wanted == {} ==> ids == {}
  {
    set id | id in vehicles && Dispatchable(vehicles[id], wanted)
  }

  /** No row before position `k` is as near as the row at `k`. */
  ghost predicate FirstNearest(engine: Engine, vehicles: map<VehicleId, Vehicle>, rows: seq<VehicleId>, at: LatLng, k: nat)
    requires k < |rows| && forall r :: r in rows ==> r in vehicles
  {
    forall j :: 0 <= j < k ==> engine.distance(at, vehicles[rows[j]].pos) > engine.distance(at, vehicles[rows[k]].pos)
  }

  /** `min(rows, key=distance to the incident)`: the nearest candidate, the first in row order on ties. */
  function Nearest(engine: Engine, vehicles: map<VehicleId, Vehicle>, rows: seq<VehicleId>, at: LatLng): (id: VehicleId)
    requires |rows| > 0 && forall r :: r in rows ==> r in vehicles
    ensures id in rows
    ensures forall r :: r in rows ==> engine.distance(at, vehicles[id].pos) <= engine.distance(at, vehicles[r].pos)
    ensures exists k :: 0 <= k < |rows| && rows[k] == id && FirstNearest(engine, vehicles, rows, at, k)
  {
    var k := Common.ArgMin(rows, r => if r in vehicles then engine.distance(at, vehicles[r].pos) else 0.0);
    rows[k]
  }

  /** `_nearest_vehicle`: the candidates are read in an order the database
      chooses; `None` when there are none. */
  method NearestVehicle(engine: Engine, db: Db, incident: Incident) returns (choice: Common.Option<VehicleId>)
    ensures choice.None? <==> CandidateIds(db.vehicles, WantedTypes(incident.itype)) == {}
    ensures choice.Some? ==>
      && choice.value in CandidateIds(db.vehicles, WantedTypes(incident.itype))
      && forall id :: id in CandidateIds(db.vehicles, WantedTypes(incident.itype)) ==>
           engine.distance(incident.pos, db.vehicles[choice.value].pos) <= engine.distance(incident.pos, db.vehicles[id].pos)
  {
    var candidates := CandidateIds(db.vehicles, WantedTypes(incident.itype));
    var rows := Common.ListOf(candidates);
    if |rows| == 0 {
      return Common.None;
    }
    return Common.Some(Nearest(engine, db.vehicles, rows, incident.pos));
  }

  /** `_extract_route_hexes`: the cells of the route points, once each, in no particular order. */
  method ExtractRouteHexes(engine: Engine, geometry: seq<LatLng>) returns (hexes: seq<CellId>)
    ensures forall p :: p in geometry ==> HexService.HexIdOf(engine.hexes, p.lat, p.lng) in hexes
    ensures forall h :: h in hexes ==> exists p :: p in geometry && h == HexService.HexIdOf(engine.hexes, p.lat, p.lng)
    ensures forall i, j :: 0 <= i < j < |hexes| ==> hexes[i] != hexes[j]
  {
    var cells := set p | p in geometry :: HexService.HexIdOf(engine.hexes, p.lat, p.lng);
    hexes := Common.ListOf(cells);
  }

  /** What `dispatch` returns. */
  datatype Outcome =
    | NoVehicle(incidentId: IncidentId, message: string)
    | Dispatched(incidentId: IncidentId, vehicleId: VehicleId, vehicle: Vehicle, route: Route, corridorHexes: seq<CellId>)

  /** `vehicle.get("status") or "available"`. */
  function PrevStatus(v: Vehicle): string
  {
    if v.status == "" then "available" else v.status
  }

  /** The reserved vehicle: busy, and placed in the incident's cell. */
  function Reserved(v: Vehicle, hexId: CellId): Vehicle
  {
    v.(status := "busy", currentHex := Common.Some(hexId))
  }

  /** The assignment `UPDATE incidents ... WHERE id = incident_id` (no row, no change). */
  function Assigned(incidents: map<IncidentId, Incident>, incidentId: IncidentId, vehicleId: VehicleId): map<IncidentId, Incident>
  {
    if incidentId in incidents
    then incidents[incidentId := incidents[incidentId].(assignedVehicle := Common.Some(vehicleId), status := "assigned")]
    else incidents
  }

  /** What one `dispatch(incident)` does to the store, the corridor and the
      label cache, from the state before (`...0`) to the state after. With no
      candidate: "No available vehicles", one empty `vehicle_dispatched` event,
      nothing else changed. Otherwise: a nearest candidate is reserved (busy,
      in the incident's cell) and assigned to the incident, the corridor is
      activated on the cells of the route from the vehicle to the incident,
      the label cache takes one lookup over `cells`, and the radio exchange,
      `vehicle_dispatched` and `route_update` are emitted in that order. */
  ghost predicate Dispatches(engine: Engine, incidentId: IncidentId, incident: Incident, now: real, labelsUp: bool,
                             cells: map<CellId, Cell>,
                             vehicles0: map<VehicleId, Vehicle>, incidents0: map<IncidentId, Incident>,
                             corridor0: Corridor.State, cache0: Common.Option<map<CellId, string>>, events0: seq<Event>,
                             outcome: Outcome,
                             vehicles: map<VehicleId, Vehicle>, incidents: map<IncidentId, Incident>,
                             corridor: Corridor.State, cache: Common.Option<map<CellId, string>>, events: seq<Event>)
  {
    var candidates := CandidateIds(vehicles0, WantedTypes(incident.itype));
    && outcome.incidentId == incidentId
    && (outcome.NoVehicle? <==> candidates == {})
    && (outcome.NoVehicle? ==>
      && outcome.message == "No available vehicles"
      && vehicles == vehicles0 && incidents == incidents0 && corridor == corridor0 && cache == cache0
      && events == events0 + Emits(incidentId, incident, vehicles0, cache, outcome))
    && (outcome.Dispatched? ==>
      var id := outcome.vehicleId;
      && id in candidates
      && (forall other :: other in candidates ==>
            engine.distance(incident.pos, vehicles0[id].pos) <= engine.distance(incident.pos, vehicles0[other].pos))
      && outcome.vehicle == Reserved(vehicles0[id], incident.hexId)
      && vehicles == vehicles0[id := outcome.vehicle]
      && incidents == Assigned(incidents0, incidentId, id)
      && outcome.route == GetRoute(engine.routes, vehicles0[id].pos, incident.pos)
      && (forall h :: h in outcome.corridorHexes <==>
            exists p :: p in outcome.route.geometry && h == HexService.HexIdOf(engine.hexes, p.lat, p.lng))
      && corridor == Corridor.Activated(outcome.corridorHexes, now)
      && cache == HexLabels.CacheAfter(cache0, cells.Keys, labelsUp)
      && events == events0 + Emits(incidentId, incident, vehicles0, cache, outcome))
  }

  /** The events one dispatch appends, given its outcome and the label cache
      after it: one empty `vehicle_dispatched` when nothing was found;
      otherwise the radio exchange naming the cell, then `vehicle_dispatched`
      and `route_update`. */
  function Emits(incidentId: IncidentId, incident: Incident, vehicles0: map<VehicleId, Vehicle>,
                 cache: Common.Option<map<CellId, string>>, outcome: Outcome): seq<Event>
    requires outcome.Dispatched? ==> outcome.vehicleId in vehicles0
  {
    if outcome.NoVehicle? then [VehicleDispatched(incidentId, Common.None, [])]
    else
      RadioComms.RadioMessages(outcome.vehicleId, PrevStatus(vehicles0[outcome.vehicleId]), incident.itype,
                               RadioComms.HexName(HexLabels.Lookup(cache, incident.hexId), incident.hexId))
      + [VehicleDispatched(incidentId, Common.Some(outcome.vehicleId), outcome.corridorHexes),
         RouteUpdate(incidentId, outcome.vehicleId, outcome.route, outcome.corridorHexes)]
  }

  /** A dispatch touches one incident row, the dispatched one: it gains the
      vehicle and status "assigned" when a vehicle was found, and stays as it
      was otherwise; the chosen vehicle ends busy in the incident's cell. */
  lemma DispatchTouchesOneRow(engine: Engine, incidentId: IncidentId, incident: Incident, now: real, labelsUp: bool,
                              cells: map<CellId, Cell>,
                              vehicles0: map<VehicleId, Vehicle>, incidents0: map<IncidentId, Incident>,
                              corridor0: Corridor.State, cache0: Common.Option<map<CellId, string>>, events0: seq<Event>,
                              outcome: Outcome,
                              vehicles: map<VehicleId, Vehicle>, incidents: map<IncidentId, Incident>,
                              corridor: Corridor.State, cache: Common.Option<map<CellId, string>>, events: seq<Event>)
    requires incidentId in incidents0
    requires Dispatches(engine, incidentId, incident, now, labelsUp, cells, vehicles0, incidents0, corridor0, cache0, events0,
                        outcome, vehicles, incidents, corridor, cache, events)
    ensures incidents.Keys == incidents0.Keys && vehicles.Keys == vehicles0.Keys
    ensures forall other :: other in incidents0 && other != incidentId ==> incidents[other] == incidents0[other]
    ensures outcome.NoVehicle? ==> incidents[incidentId] == incidents0[incidentId]
    ensures outcome.Dispatched? ==>
      && incidents[incidentId] == incidents0[incidentId].(assignedVehicle := Common.Some(outcome.vehicleId), status := "assigned")
      && outcome.vehicleId in vehicles0
      && vehicles[outcome.vehicleId].status == "busy"
      && vehicles[outcome.vehicleId].currentHex == Common.Some(incident.hexId)
      && forall v :: v in vehicles0 && v != outcome.vehicleId ==> vehicles[v] == vehicles0[v]
  {
  }

  /** How the events of a dispatch end: with the empty `vehicle_dispatched`
      when nothing was found, with `vehicle_dispatched` and `route_update`
      when a vehicle was. */
  lemma EmitsEnd(incidentId: IncidentId, incident: Incident, vehicles0: map<VehicleId, Vehicle>,
                 cache: Common.Option<map<CellId, string>>, outcome: Outcome)
    requires outcome.Dispatched? ==> outcome.vehicleId in vehicles0
    ensures var e := Emits(incidentId, incident, vehicles0, cache, outcome);
      && |e| >= 1
      && (outcome.NoVehicle? ==> e[|e| - 1] == VehicleDispatched(incidentId, Common.None, []))
      && (outcome.Dispatched? ==>
            && |e| >= 2
            && e[|e| - 2] == VehicleDispatched(incidentId, Common.Some(outcome.vehicleId), outcome.corridorHexes)
            && e[|e| - 1] == RouteUpdate(incidentId, outcome.vehicleId, outcome.route, outcome.corridorHexes))
  {
  }

  /** `dispatch(incident)`. The caller's row is `incident` with id `incidentId`;
      `now` is the clock, and `labelsUp` whether the label cache can read the
      database should it need to. */
  method DispatchIncident(engine: Engine, db: Db, corridor: Corridor.Engine, labels: HexLabels.LabelCache,
                          incidentId: IncidentId, incident: Incident, now: real, labelsUp: bool)
    returns (outcome: Outcome)
    modifies db, corridor, labels
    ensures Dispatches(engine, incidentId, incident, now, labelsUp, old(db.cells),
                       old(db.vehicles), old(db.incidents), old(corridor.Snapshot()), old(labels.cache), old(db.events),
                       outcome, db.vehicles, db.incidents, corridor.Snapshot(), labels.cache, db.events)
    ensures db.cells == old(db.cells) && db.alerts == old(db.alerts)
    ensures old(db.Consistent()) ==> db.Consistent()
  {
    var choice := NearestVehicle(engine, db, incident);
    if choice.None? {
      db.events := db.events + [VehicleDispatched(incidentId, Common.None, [])];
      return NoVehicle(incidentId, "No available vehicles");
    }
    var id := choice.value;
    var vehicle := db.vehicles[id];
    var route := GetRoute(engine.routes, vehicle.pos, incident.pos);
    var hexes := ExtractRouteHexes(engine, route.geometry);
    corridor.Activate(hexes, now);
    var prevStatus := PrevStatus(vehicle);
    ReserveAndAssign(db, incidentId, id, incident.hexId);
    var lookup := labels.GetHexLabel(db, incident.hexId, labelsUp);
    var radio := RadioComms.RadioMessages(id, prevStatus, incident.itype, RadioComms.HexName(lookup, incident.hexId));
    db.events := db.events + radio;
    var reserved := Reserved(vehicle, incident.hexId);
    var closing := [VehicleDispatched(incidentId, Common.Some(id), hexes), RouteUpdate(incidentId, id, route, hexes)];
    db.events := db.events + closing;
    outcome := Dispatched(incidentId, id, reserved, route, hexes);
    assert Emits(incidentId, incident, old(db.vehicles), labels.cache, outcome) == radio + closing;
    assert db.events == old(db.events) + (radio + closing);
  }

  /** Reserving a vehicle of the table and assigning it keeps every assignment pointing at a stored vehicle. */
  lemma AssignKeepsConsistent(vehicles: map<VehicleId, Vehicle>, incidents: map<IncidentId, Incident>,
                              incidentId: IncidentId, id: VehicleId, v: Vehicle)
    requires id in vehicles && NoDangling(vehicles, incidents)
    ensures NoDangling(vehicles[id := v], Assigned(incidents, incidentId, id))
  {
  }

  /** The two `UPDATE`s of a dispatch: the vehicle reserved, the incident assigned. */
  method ReserveAndAssign(db: Db, incidentId: IncidentId, id: VehicleId, hexId: CellId)
    requires id in db.vehicles
    modifies db
    ensures db.vehicles == old(db.vehicles)[id := Reserved(old(db.vehicles)[id], hexId)]
    ensures db.incidents == Assigned(old(db.incidents), incidentId, id)
    ensures db.cells == old(db.cells) && db.alerts == old(db.alerts) && db.events == old(db.events)
    ensures old(db.Consistent()) ==> db.Consistent()
  {
    if db.Consistent() {
      AssignKeepsConsistent(db.vehicles, db.incidents, incidentId, id, Reserved(db.vehicles[id], hexId));
    }
    db.vehicles := db.vehicles[id := Reserved(db.vehicles[id], hexId)];
    db.incidents := Assigned(db.incidents, incidentId, id);
  }
}
