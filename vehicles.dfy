/** The vehicle routes (`routes/vehicles.py`): deploying a batch of vehicles,
    deleting a vehicle (after unassigning its incidents), and a position
    update, which also drives the arrival machine: an ambulance on a medical
    incident first reaches the scene and is routed on to the nearest hospital,
    and resolves the incident on reaching the hospital; every other unit
    resolves its incident on reaching the scene. */
module Vehicles {
  import opened Common
  import opened Geo
  import opened Store
  import RouteService
  import HexService
  import Dispatch
  import Corridor
  import Incidents

  /** `ARRIVAL_THRESHOLD_KM`. */
  const ArrivalThresholdKm: real := 0.15

  /** A hospital of the fixed list. */
  datatype Hospital = Hospital(id: string, name: string, pos: LatLng)

  /** `HOSPITALS`. */
  function Hospitals(): (hospitals: seq<Hospital>)
    ensures |hospitals| == 3
    ensures forall i, j :: 0 <= i < j < |hospitals| ==> hospitals[i].id != hospitals[j].id
    ensures forall distance: Distance, at :: NearestHospital(distance, at, hospitals).Some?
  {
    [Hospital("H1", "Rajiv Gandhi Govt Hospital", LatLng(13.0826, 80.2750)),
     Hospital("H2", "Stanley Medical College", LatLng(13.1009, 80.2937)),
     Hospital("H3", "OMR Private Hospital", LatLng(12.9684, 80.2414))]
  }

  /** `_nearest_hospital(lat, lng)` over a hospital list: `None` for an empty
      list, otherwise the nearest, the first one on ties. */
  function NearestHospital(distance: Distance, at: LatLng, hospitals: seq<Hospital>): (nearest: Option<Hospital>)
    ensures nearest.None? <==> hospitals == []
    ensures nearest.Some? ==>
      && nearest.value in hospitals
      && forall h :: h in hospitals ==> distance(at, nearest.value.pos) <= distance(at, h.pos)
    ensures nearest.Some? ==> exists k ::
      (0 <= k < |hospitals| && hospitals[k] == nearest.value
       && forall j :: 0 <= j < k ==> distance(at, hospitals[j].pos) > distance(at, nearest.value.pos))
  {
    if hospitals == [] then None
    else Some(hospitals[ArgMin(hospitals, (h: Hospital) => distance(at, h.pos))])
  }

  // ---------------------------------------------------------------- deploy

  /** The stored type for a requested type string, if it is one of the four. */
  function ParseVehicleType(s: string): (t: Option<VehicleType>)
    ensures t.Some? <==> s in {"police", "ambulance", "fire", "municipal"}
    ensures t.Some? ==> TypeName(t.value) == s
  {
    if s == "police" then Some(Police)
    else if s == "ambulance" then Some(Ambulance)
    else if s == "fire" then Some(Fire)
    else if s == "municipal" then Some(Municipal)
    else None
  }

  /** Every stored type is accepted back as itself. */
  lemma ParseTypeName(t: VehicleType)
    ensures ParseVehicleType(TypeName(t)) == Some(t)
  {
  }

  /** `max(1, min(count, 50))`. */
  function ClampCount(count: int): (n: int)
    ensures 1 <= n <= 50
    ensures 1 <= count <= 50 ==> n == count
    ensures count < 1 ==> n == 1
    ensures count > 50 ==> n == 50
  {
    if count < 1 then 1 else if count > 50 then 50 else count
  }

  /** The fields of a deploy request (`None` for an absent field). */
  datatype DeployRequest = DeployRequest(
    vtype: Option<string>,
    count: Option<int>,
    status: Option<string>,
    hexId: Option<string>,
    latitude: Option<real>,
    longitude: Option<real>)

  /** Where a deploy puts its vehicles: the cell and the point. */
  datatype Placement = Placement(hexId: CellId, pos: LatLng)

  /** `(13.0827, 80.2707)`, the default deploy point. */
  const DefaultDeployPoint: LatLng := LatLng(13.0827, 80.2707)

  /** The deploy location: a given (non-empty) cell id wins and must be stored
      (`None` is the 404), then a given latitude and longitude, then the default point. */
  function DeployPlacement(hexes: HexService.Service, cells: map<CellId, Cell>, req: DeployRequest): (p: Option<Placement>)
    ensures req.hexId.Some? && req.hexId.value != "" ==>
      (p.Some? <==> req.hexId.value in cells) && (p.Some? ==> p.value == Placement(req.hexId.value, cells[req.hexId.value].center))
    ensures (req.hexId.None? || req.hexId.value == "") && req.latitude.Some? && req.longitude.Some? ==>
      var at := LatLng(req.latitude.value, req.longitude.value);
      p == Some(Placement(HexService.HexIdOf(hexes, at.lat, at.lng), at))
    ensures (req.hexId.None? || req.hexId.value == "") && (req.latitude.None? || req.longitude.None?) ==>
      p == Some(Placement(HexService.HexIdOf(hexes, DefaultDeployPoint.lat, DefaultDeployPoint.lng), DefaultDeployPoint))
  {
    if req.hexId.Some? && req.hexId.value != "" then
      if req.hexId.value in cells then Some(Placement(req.hexId.value, cells[req.hexId.value].center)) else None
    else if req.latitude.Some? && req.longitude.Some? then
      var at := LatLng(req.latitude.value, req.longitude.value);
      Some(Placement(HexService.HexIdOf(hexes, at.lat, at.lng), at))
    else
      Some(Placement(HexService.HexIdOf(hexes, DefaultDeployPoint.lat, DefaultDeployPoint.lng), DefaultDeployPoint))
  }

  /** What the deploy endpoint answers. */
  datatype DeployResponse =
    | InvalidType
    | UnknownHex
    | Deployed(ids: seq<VehicleId>)

  /** `deploy_vehicles` (`POST /api/vehicles/deploy`): 400 for a type outside
      the four, 404 for an unknown cell, otherwise `count` clamped into [1, 50]
      new vehicles of that type and status (default "police", "patrolling")
      at the placement, each announced as it is inserted. */
  method DeployVehicles(hexes: HexService.Service, db: Db, req: DeployRequest) returns (resp: DeployResponse)
    modifies db
    ensures resp == InvalidType <==> ParseVehicleType(OrDefault(req.vtype, "police")).None?
    ensures resp == UnknownHex <==>
      ParseVehicleType(OrDefault(req.vtype, "police")).Some? && DeployPlacement(hexes, old(db.cells), req).None?
    ensures !resp.Deployed? ==> db.vehicles == old(db.vehicles) && db.events == old(db.events)
    ensures resp.Deployed? ==>
      var vtype := ParseVehicleType(OrDefault(req.vtype, "police")).value;
      var place := DeployPlacement(hexes, old(db.cells), req).value;
      var vehicle := Vehicle(vtype, place.pos, OrDefault(req.status, "patrolling"), Some(place.hexId));
      && |resp.ids| == ClampCount(if req.count.Some? then req.count.value else 1)
      && (forall i, j :: 0 <= i < j < |resp.ids| ==> resp.ids[i] != resp.ids[j])
      && (forall i :: 0 <= i < |resp.ids| ==> resp.ids[i] !in old(db.vehicles))
      && db.vehicles.Keys == old(db.vehicles).Keys + (set x | x in resp.ids)
      && (forall v :: v in old(db.vehicles) ==> db.vehicles[v] == old(db.vehicles)[v])
      && (forall i :: 0 <= i < |resp.ids| ==> db.vehicles[resp.ids[i]] == vehicle)
      && db.events == old(db.events) + Announced(resp.ids)
    ensures db.incidents == old(db.incidents) && db.cells == old(db.cells) && db.alerts == old(db.alerts)
  {
    var vtype := ParseVehicleType(OrDefault(req.vtype, "police"));
    if vtype.None? {
      return InvalidType;
    }
    var count := ClampCount(if req.count.Some? then req.count.value else 1);
    var status := OrDefault(req.status, "patrolling");
    var place := DeployPlacement(hexes, db.cells, req);
    if place.None? {
      return UnknownHex;
    }
    var ids := InsertVehicles(db, Vehicle(vtype.value, place.value.pos, status, Some(place.value.hexId)), count);
    return Deployed(ids);
  }

  /** `payload.get(key, default)` for a field that is absent (`None`) or present. */
  function OrDefault(field: Option<string>, default: string): string
  {
    if field.Some? then field.value else default
  }

  /** The `vehicle_position` events announcing the given vehicles, in order. */
  function Announced(ids: seq<VehicleId>): (events: seq<Event>)
    ensures |events| == |ids|
    ensures forall i :: 0 <= i < |ids| ==> events[i] == VehiclePosition(ids[i])
  {
    seq(|ids|, i requires 0 <= i < |ids| => VehiclePosition(ids[i]))
  }

  /** The insert loop of the deploy: `count` rows under fresh ids. */
  method InsertVehicles(db: Db, vehicle: Vehicle, count: nat) returns (ids: seq<VehicleId>)
    modifies db
    ensures |ids| == count
    ensures forall i, j :: 0 <= i < j < |ids| ==> ids[i] != ids[j]
    ensures forall i :: 0 <= i < |ids| ==> ids[i] !in old(db.vehicles)
    ensures db.vehicles.Keys == old(db.vehicles).Keys + (set x | x in ids)
    ensures forall v :: v in old(db.vehicles) ==> db.vehicles[v] == old(db.vehicles)[v]
    ensures forall i :: 0 <= i < |ids| ==> db.vehicles[ids[i]] == vehicle
    ensures db.events == old(db.events) + Announced(ids)
    ensures db.incidents == old(db.incidents) && db.cells == old(db.cells) && db.alerts == old(db.alerts)
  {
    ids := [];
    var vehicles, events := db.vehicles, db.events;
    ghost var v0, e0 := vehicles, events;
    while |ids| < count
      invariant |ids| <= count
      invariant unchanged(db)
      invariant Inserted(v0, vehicles, ids, vehicle)
      invariant events == e0 + Announced(ids)
      decreases count - |ids|
    {
      ghost var unused := FreshStringExists(vehicles.Keys);
      var id :| id !in vehicles;
      InsertedStep(v0, vehicles, ids, vehicle, id);
      vehicles := vehicles[id := vehicle];
      events := events + [VehiclePosition(id)];
      assert Announced(ids + [id]) == Announced(ids) + [VehiclePosition(id)];
      ids := ids + [id];
    }
    db.vehicles, db.events := vehicles, events;
  }

  /** After inserting `vehicle` under each of `ids`, `after` is `before` with
      those rows added: fresh ids, once each, and nothing else changed. */
  ghost predicate Inserted(before: map<VehicleId, Vehicle>, after: map<VehicleId, Vehicle>, ids: seq<VehicleId>, vehicle: Vehicle)
  {
    && (forall i, j :: 0 <= i < j < |ids| ==> ids[i] != ids[j])
    && (forall i :: 0 <= i < |ids| ==> ids[i] !in before)
    && after.Keys == before.Keys + (set x | x in ids)
    && (forall v :: v in before ==> after[v] == before[v])
    && (forall i :: 0 <= i < |ids| ==> after[ids[i]] == vehicle)
  }

  /** One more fresh row keeps `Inserted`. */
  lemma InsertedStep(before: map<VehicleId, Vehicle>, after: map<VehicleId, Vehicle>, ids: seq<VehicleId>,
                     vehicle: Vehicle, id: VehicleId)
    requires Inserted(before, after, ids, vehicle) && id !in after
    ensures Inserted(before, after[id := vehicle], ids + [id], vehicle)
  {
    assert (set x | x in ids + [id]) == (set x | x in ids) + {id};
  }

  // ---------------------------------------------------------------- delete

  /** `UPDATE incidents SET assigned_vehicle_id = NULL, status = 'new' WHERE
      assigned_vehicle_id = ...`: attended or not, every incident of the
      vehicle goes back to unassigned and "new". */
  function Unlinked(incidents: map<IncidentId, Incident>, vehicleId: VehicleId): (after: map<IncidentId, Incident>)
    ensures after.Keys == incidents.Keys
    ensures forall id :: id in incidents ==>
      after[id] == if incidents[id].assignedVehicle == Some(vehicleId)
                   then incidents[id].(assignedVehicle := None, status := "new")
                   else incidents[id]
  {
    map id | id in incidents :: if incidents[id].assignedVehicle == Some(vehicleId)
                                 then incidents[id].(assignedVehicle := None, status := "new")
                                 else incidents[id]
  }

  /** Unassigning before deleting leaves no incident pointing at the deleted vehicle. */
  lemma {:induction false} DeleteLeavesNoDangling(vehicles: map<VehicleId, Vehicle>, incidents: map<IncidentId, Incident>, vehicleId: VehicleId)
    requires NoDangling(vehicles, incidents)
    ensures NoDangling(vehicles - {vehicleId}, Unlinked(incidents, vehicleId))
  {
    var after := Unlinked(incidents, vehicleId);
    forall id | id in after && after[id].assignedVehicle.Some?
      ensures after[id].assignedVehicle.value in vehicles - {vehicleId}
    {
      assert incidents[id].assignedVehicle != Some(vehicleId);
    }
  }

  /** `delete_vehicle` (`DELETE /api/vehicles/<id>`): 404 for an unknown id;
      otherwise unassign its incidents, delete it and announce the removal. */
  method DeleteVehicle(db: Db, vehicleId: VehicleId) returns (found: bool)
    modifies db
    ensures found <==> vehicleId in old(db.vehicles)
    ensures !found ==> db.vehicles == old(db.vehicles) && db.incidents == old(db.incidents) && db.events == old(db.events)
    ensures found ==>
      && db.incidents == Unlinked(old(db.incidents), vehicleId)
      && db.vehicles == old(db.vehicles) - {vehicleId}
      && db.events == old(db.events) + [VehicleRemoved(vehicleId)]
    ensures db.cells == old(db.cells) && db.alerts == old(db.alerts)
    ensures old(db.Consistent()) ==> db.Consistent()
  {
    if vehicleId !in db.vehicles {
      return false;
    }
    ghost var vehicles0, incidents0 := db.vehicles, db.incidents;
    db.incidents := Unlinked(db.incidents, vehicleId);
    db.vehicles := db.vehicles - {vehicleId};
    db.events := db.events + [VehicleRemoved(vehicleId)];
    if NoDangling(vehicles0, incidents0) {
      DeleteLeavesNoDangling(vehicles0, incidents0, vehicleId);
    }
    return true;
  }

  // ---------------------------------------------------------------- position updates and arrival

  /** What the arrival machine does with one of the vehicle's open incidents. */
  datatype Action =
    | Nothing
    | StartHospitalLeg(hospital: Hospital)
    | Resolve

  /** The incident needs the hospital hand-off: an ambulance on a
      `road_accident` or `medical` incident (type compared lower-cased). */
  predicate AmbulanceCase(vehicle: Vehicle, incident: Incident)
  {
    Lower(incident.itype) in {"road_accident", "medical"} && vehicle.vtype == Ambulance
  }

  /** `(leg_phase or "to_scene").lower()`. */
  function LegPhase(incident: Incident): string
  {
    Lower(OrElse(incident.legPhase, "to_scene"))
  }

  /** The body of the arrival loop for one incident, the vehicle being at `vehicle.pos`. */
  function ActionFor(distance: Distance, hospitals: seq<Hospital>, vehicle: Vehicle, incident: Incident): (action: Action)
    ensures action.StartHospitalLeg? ==>
      && AmbulanceCase(vehicle, incident) && LegPhase(incident) == "to_scene"
      && distance(vehicle.pos, incident.pos) <= ArrivalThresholdKm
      && NearestHospital(distance, incident.pos, hospitals) == Some(action.hospital)
    ensures action.Resolve? && AmbulanceCase(vehicle, incident) ==>
      && LegPhase(incident) == "to_hospital" && incident.hospital.Some?
      && distance(vehicle.pos, incident.hospital.value) <= ArrivalThresholdKm
    ensures !AmbulanceCase(vehicle, incident) ==>
      (action.Resolve? <==> distance(vehicle.pos, incident.pos) <= ArrivalThresholdKm) && !action.StartHospitalLeg?
    ensures AmbulanceCase(vehicle, incident) && LegPhase(incident) == "to_scene" && hospitals != []
            && distance(vehicle.pos, incident.pos) <= ArrivalThresholdKm ==>
      action == StartHospitalLeg(NearestHospital(distance, incident.pos, hospitals).value)
    ensures AmbulanceCase(vehicle, incident) && LegPhase(incident) == "to_hospital" && incident.hospital.Some?
            && distance(vehicle.pos, incident.hospital.value) <= ArrivalThresholdKm ==>
      action.Resolve?
  {
    if AmbulanceCase(vehicle, incident) then
      var leg := LegPhase(incident);
      var hospital := NearestHospital(distance, incident.pos, hospitals);
      if leg == "to_scene" && distance(vehicle.pos, incident.pos) <= ArrivalThresholdKm && hospital.Some? then
        StartHospitalLeg(hospital.value)
      else if leg == "to_hospital" && incident.hospital.Some? && distance(vehicle.pos, incident.hospital.value) <= ArrivalThresholdKm then
        Resolve
      else
        Nothing
    else if distance(vehicle.pos, incident.pos) <= ArrivalThresholdKm then
      Resolve
    else
      Nothing
  }

  /** The incident row after leg 1: the hospital recorded and the phase moved on; still open. */
  function OnHospitalLeg(incident: Incident, hospital: Hospital): (after: Incident)
    ensures after.hospital == Some(hospital.pos) && after.legPhase == Some("to_hospital")
    ensures !after.attended == !incident.attended && after.status == incident.status
    ensures after.assignedVehicle == incident.assignedVehicle
  {
    incident.(hospital := Some(hospital.pos), legPhase := Some("to_hospital"))
  }

  /** The two legs of an ambulance on a medical incident: reaching the scene
      does not resolve it but starts the hospital leg; after that, being at the
      scene again does nothing (no hospital lies within the threshold of it),
      and reaching the hospital resolves it. */
  lemma {:induction false} AmbulanceTwoLegs(distance: Distance, hospitals: seq<Hospital>, ambulance: Vehicle, incident: Incident)
    requires ambulance.vtype == Ambulance && Lower(incident.itype) in {"road_accident", "medical"}
    requires incident.legPhase.None? || incident.legPhase == Some("to_scene")
    requires ambulance.pos == incident.pos
    requires forall p :: distance(p, p) == 0.0
    requires hospitals != []
    requires forall h :: h in hospitals ==> distance(incident.pos, h.pos) > ArrivalThresholdKm
    ensures var first := ActionFor(distance, hospitals, ambulance, incident);
      && first.StartHospitalLeg?
      && var onLeg := OnHospitalLeg(incident, first.hospital);
         && ActionFor(distance, hospitals, ambulance, onLeg) == Nothing
         && ActionFor(distance, hospitals, ambulance.(pos := first.hospital.pos), onLeg) == Resolve
  {
    assert Lower("to_scene") == "to_scene";
    assert Lower("to_hospital") == "to_hospital";
    var first := ActionFor(distance, hospitals, ambulance, incident);
    var h := NearestHospital(distance, incident.pos, hospitals).value;
    assert first == StartHospitalLeg(h);
    var onLeg := OnHospitalLeg(incident, h);
    assert LegPhase(onLeg) == "to_hospital";
    assert distance(ambulance.pos, h.pos) > ArrivalThresholdKm;
  }

  /** The stored type "accident" never takes the hospital leg: incidents are
      stored normalised, and the hand-off tests the raw names. An ambulance
      resolves an accident at the scene like any other unit. */
  lemma StoredAccidentResolvesAtScene(distance: Distance, hospitals: seq<Hospital>, ambulance: Vehicle, incident: Incident)
    requires incident.itype == "accident"
    requires distance(ambulance.pos, incident.pos) <= ArrivalThresholdKm
    ensures ActionFor(distance, hospitals, ambulance, incident) == Resolve
  {
    assert Lower("accident") == "accident";
  }

  /** The incidents the arrival loop looks at: assigned to the vehicle and not attended. */
  function Open(incidents: map<IncidentId, Incident>, vehicleId: VehicleId): set<IncidentId>
  {
    set id | id in incidents && incidents[id].assignedVehicle == Some(vehicleId) && !incidents[id].attended
  }

  /** A resolved incident leaves the vehicle's open incidents, so no later
      position update acts on it again. */
  lemma ResolvedLeavesOpen(incidents: map<IncidentId, Incident>, id: IncidentId, vehicleId: VehicleId)
    requires id in incidents
    ensures Open(incidents[id := Incidents.AttendedRow(incidents[id])], vehicleId) == Open(incidents, vehicleId) - {id}
  {
  }

  /** The corridor cells of a route: the cell of every point, and nothing else. */
  ghost predicate RouteCells(engine: Dispatch.Engine, geometry: seq<LatLng>, hexes: seq<CellId>)
  {
    forall h :: h in hexes <==> exists p :: p in geometry && h == HexService.HexIdOf(engine.hexes, p.lat, p.lng)
  }

  /** What the arrival loop leaves behind, from the state before it
      (`...0`) to the state after it, for the vehicle `vehicleId` standing as
      `vehicle`: with no incident to act on nothing changes; otherwise exactly
      one open incident, `acted`, had its action applied. */
  ghost predicate Arrival(engine: Dispatch.Engine, hospitals: seq<Hospital>, vehicleId: VehicleId, vehicle: Vehicle,
                          acted: Option<IncidentId>, now: real,
                          incidents0: map<IncidentId, Incident>, vehicles0: map<VehicleId, Vehicle>,
                          events0: seq<Event>, corridor0: Corridor.State,
                          incidents: map<IncidentId, Incident>, vehicles: map<VehicleId, Vehicle>,
                          events: seq<Event>, corridor: Corridor.State)
  {
    if acted.None? then
      && (forall id :: id in Open(incidents0, vehicleId) ==> ActionFor(engine.distance, hospitals, vehicle, incidents0[id]) == Nothing)
      && incidents == incidents0 && vehicles == vehicles0 && events == events0 && corridor == corridor0
    else
      var id := acted.value;
      && id in Open(incidents0, vehicleId)
      && var action := ActionFor(engine.distance, hospitals, vehicle, incidents0[id]);
         match action
         case Nothing => false
         case StartHospitalLeg(hospital) =>
           && incidents == incidents0[id := OnHospitalLeg(incidents0[id], hospital)]
           && vehicles == vehicles0
           && |events| == |events0| + 1 && events[..|events0|] == events0
           && var e := events[|events0|];
              && e.RouteUpdate? && e.incidentId == id && e.vehicleId == vehicleId
              && e.route == RouteService.GetRoute(engine.routes, vehicle.pos, hospital.pos)
              && RouteCells(engine, e.route.geometry, e.corridor)
              && corridor == Corridor.Activated(e.corridor, now)
         case Resolve =>
           && incidents == incidents0[id := Incidents.AttendedRow(incidents0[id])]
           && vehicles == Incidents.Released(vehicles0, Some(vehicleId))
           && events == events0 + [IncidentAttendedEvent(id)]
           && corridor == Corridor.Cleared()
  }

  /** The arrival loop of `update_vehicle_position`: walk the vehicle's open
      incidents in the order the database returns them, apply the first action
      that applies, and stop there. */
  method ArriveAt(engine: Dispatch.Engine, hospitals: seq<Hospital>, db: Db, corridor: Corridor.Engine,
                  vehicleId: VehicleId, vehicle: Vehicle, now: real)
    returns (acted: Option<IncidentId>)
    modifies db, corridor
    ensures Arrival(engine, hospitals, vehicleId, vehicle, acted, now,
                    old(db.incidents), old(db.vehicles), old(db.events), old(corridor.Snapshot()),
                    db.incidents, db.vehicles, db.events, corridor.Snapshot())
    ensures db.cells == old(db.cells) && db.alerts == old(db.alerts)
  {
    var rows := ListOf(Open(db.incidents, vehicleId));
    var i := 0;
    while i < |rows| && ActionFor(engine.distance, hospitals, vehicle, db.incidents[rows[i]]).Nothing?
      invariant i <= |rows|
      invariant forall j :: 0 <= j < |rows| ==> rows[j] in Open(db.incidents, vehicleId)
      invariant forall j :: 0 <= j < i ==> ActionFor(engine.distance, hospitals, vehicle, db.incidents[rows[j]]) == Nothing
    {
      i := i + 1;
    }
    if i == |rows| {
      return None;
    }
    var id := rows[i];
    Act(engine, db, corridor, vehicleId, vehicle, id, ActionFor(engine.distance, hospitals, vehicle, db.incidents[id]), now);
    return Some(id);
  }

  /** One action of the arrival loop, applied to the store and the corridor. */
  method Act(engine: Dispatch.Engine, db: Db, corridor: Corridor.Engine, vehicleId: VehicleId, vehicle: Vehicle,
             id: IncidentId, action: Action, now: real)
    modifies db, corridor
    requires id in db.incidents && !action.Nothing?
    ensures action.StartHospitalLeg? ==>
      && db.incidents == old(db.incidents)[id := OnHospitalLeg(old(db.incidents)[id], action.hospital)]
      && db.vehicles == old(db.vehicles)
      && |db.events| == |old(db.events)| + 1 && db.events[..|old(db.events)|] == old(db.events)
      && var e := db.events[|old(db.events)|];
         && e.RouteUpdate? && e.incidentId == id && e.vehicleId == vehicleId
         && e.route == RouteService.GetRoute(engine.routes, vehicle.pos, action.hospital.pos)
         && RouteCells(engine, e.route.geometry, e.corridor)
         && corridor.Snapshot() == Corridor.Activated(e.corridor, now)
    ensures action.Resolve? ==>
      && db.incidents == old(db.incidents)[id := Incidents.AttendedRow(old(db.incidents)[id])]
      && db.vehicles == Incidents.Released(old(db.vehicles), Some(vehicleId))
      && db.events == old(db.events) + [IncidentAttendedEvent(id)]
      && corridor.Snapshot() == Corridor.Cleared()
    ensures db.cells == old(db.cells) && db.alerts == old(db.alerts)
  {
    match action
    case StartHospitalLeg(hospital) =>
      db.incidents := db.incidents[id := OnHospitalLeg(db.incidents[id], hospital)];
      var route := RouteService.GetRoute(engine.routes, vehicle.pos, hospital.pos);
      var hexes := Dispatch.ExtractRouteHexes(engine, route.geometry);
      corridor.Activate(hexes, now);
      db.events := db.events + [RouteUpdate(id, vehicleId, route, hexes)];
    case Resolve =>
      db.incidents := db.incidents[id := Incidents.AttendedRow(db.incidents[id])];
      db.vehicles := Incidents.Released(db.vehicles, Some(vehicleId));
      corridor.Clear();
      db.events := db.events + [IncidentAttendedEvent(id)];
  }

  /** The fields of a position update (`None` for an absent field). */
  datatype PositionRequest = PositionRequest(vehicleId: Option<string>, latitude: Option<real>, longitude: Option<real>,
                                             currentHex: Option<string>)

  /** What the position endpoint answers; `acted` is the incident the arrival
      loop acted on, which the answer itself does not carry. */
  datatype PositionResponse =
    | MissingFields
    | VehicleNotFound
    | Moved(vehicle: Vehicle, acted: Option<IncidentId>)

  /** `update_vehicle_position` (`POST /api/vehicles/position`): 400 unless a
      vehicle id and both coordinates are given; the position and cell are
      written before the vehicle is looked up, so an unknown id changes nothing
      and answers 404; otherwise the move is announced and the arrival loop runs. */
  method UpdateVehiclePosition(engine: Dispatch.Engine, hospitals: seq<Hospital>, db: Db, corridor: Corridor.Engine,
                               req: PositionRequest, now: real)
    returns (resp: PositionResponse)
    modifies db, corridor
    ensures resp == MissingFields <==> OrElse(req.vehicleId, "") == "" || req.latitude.None? || req.longitude.None?
    ensures resp == VehicleNotFound <==> resp != MissingFields && req.vehicleId.value !in old(db.vehicles)
    ensures !resp.Moved? ==>
      && db.vehicles == old(db.vehicles) && db.incidents == old(db.incidents) && db.events == old(db.events)
      && corridor.Snapshot() == old(corridor.Snapshot())
    ensures resp.Moved? ==>
      && req.vehicleId.Some? && req.latitude.Some? && req.longitude.Some?
      && var vehicleId := req.vehicleId.value;
         && vehicleId in old(db.vehicles)
         && resp.vehicle == old(db.vehicles)[vehicleId].(pos := LatLng(req.latitude.value, req.longitude.value),
                                                         currentHex := if OrElse(req.currentHex, "") == "" then None else req.currentHex)
         && Arrival(engine, hospitals, vehicleId, resp.vehicle, resp.acted, now,
                    old(db.incidents), old(db.vehicles)[vehicleId := resp.vehicle], old(db.events) + [VehiclePosition(vehicleId)],
                    old(corridor.Snapshot()), db.incidents, db.vehicles, db.events, corridor.Snapshot())
    ensures db.cells == old(db.cells) && db.alerts == old(db.alerts)
  {
    if OrElse(req.vehicleId, "") == "" || req.latitude.None? || req.longitude.None? {
      return MissingFields;
    }
    var vehicleId := req.vehicleId.value;
    var pos := LatLng(req.latitude.value, req.longitude.value);
    var currentHex := if OrElse(req.currentHex, "") == "" then None else req.currentHex;
    if vehicleId in db.vehicles {
      db.vehicles := db.vehicles[vehicleId := db.vehicles[vehicleId].(pos := pos, currentHex := currentHex)];
    }
    if vehicleId !in db.vehicles {
      return VehicleNotFound;
    }
    var vehicle := db.vehicles[vehicleId];
    db.events := db.events + [VehiclePosition(vehicleId)];
    var acted := ArriveAt(engine, hospitals, db, corridor, vehicleId, vehicle, now);
    return Moved(vehicle, acted);
  }
}
