/** The incident routes (`routes/incidents.py`): type normalisation onto the
    five stored types, the two create endpoints (web form and Telegram bot)
    with their shared insert, density and dispatch pipeline, the batch
    dispatch of unassigned incidents, and marking an incident attended. */
module Incidents {
  import opened Common
  import opened Geo
  import opened Store
  import HexService
  import Intelligence
  import Dispatch
  import Corridor
  import RadioComms
  import HexLabels

  /** `TELEGRAM_TYPE_TO_DB`: incoming type to one of the types the `incidents` table accepts. */
  function TypeTable(): map<string, string>
  {
    map["fire" := "fire", "medical" := "medical", "road_accident" := "accident", "accident" := "accident",
        "road_damage" := "civic", "garbage" := "civic", "public_safety" := "civic", "theft" := "crime",
        "suspicious" := "crime", "public_disturbance" := "civic", "crime" := "crime", "civic" := "civic"]
  }

  /** The five types the `incidents_type_check` constraint allows. */
  predicate IsStoredType(t: string)
  {
    t in {"fire", "medical", "accident", "crime", "civic"}
  }

  /** `_normalize_incident_type`: trim, lower-case, look up; unknown keys become "civic". */
  function NormalizeIncidentType(raw: string): (t: string)
    ensures Lower(PyStrip(raw)) in TypeTable() ==> t == TypeTable()[Lower(PyStrip(raw))]
    ensures Lower(PyStrip(raw)) !in TypeTable() ==> t == "civic"
    ensures IsStoredType(t)
  {
    var key := Lower(PyStrip(raw));
    if key in TypeTable() then TypeTable()[key] else "civic"
  }

  /** The named raw types and where they land. */
  lemma NormalizedRawTypes()
    ensures NormalizeIncidentType("road_accident") == "accident"
    ensures NormalizeIncidentType("theft") == "crime" && NormalizeIncidentType("suspicious") == "crime"
    ensures NormalizeIncidentType("road_damage") == "civic" && NormalizeIncidentType("garbage") == "civic"
    ensures NormalizeIncidentType("public_safety") == "civic" && NormalizeIncidentType("public_disturbance") == "civic"
  {
    RawAccidentAndCrime();
    RawCivic();
  }

  lemma RawAccidentAndCrime()
    ensures NormalizeIncidentType("road_accident") == "accident"
    ensures NormalizeIncidentType("theft") == "crime" && NormalizeIncidentType("suspicious") == "crime"
  {
    PlainKey("road_accident");
    PlainKey("theft");
    PlainKey("suspicious");
  }

  lemma RawCivic()
    ensures NormalizeIncidentType("road_damage") == "civic" && NormalizeIncidentType("garbage") == "civic"
    ensures NormalizeIncidentType("public_safety") == "civic" && NormalizeIncidentType("public_disturbance") == "civic"
  {
    PlainKey("road_damage");
    PlainKey("garbage");
    PlainKey("public_safety");
    PlainKey("public_disturbance");
  }

  /** Normalising a stored type gives it back, so normalising twice is normalising once. */
  lemma {:induction false} NormalizeIdempotent(raw: string)
    ensures NormalizeIncidentType(NormalizeIncidentType(raw)) == NormalizeIncidentType(raw)
  {
    var t := NormalizeIncidentType(raw);
    PlainKey(t);
  }

  /** Every type an endpoint stores is spoken with its table phrase, never
      with the underscore fallback. */
  lemma CreatedTypeSpoken(raw: string)
    ensures NormalizeIncidentType(raw) in RadioComms.SpeechTable()
    ensures RadioComms.SpeechFor(NormalizeIncidentType(raw)) == RadioComms.SpeechTable()[NormalizeIncidentType(raw)]
  {
    RadioComms.StoredTypesSpoken(NormalizeIncidentType(raw));
  }

  /** The fields of a create request the handlers read (`None` for an absent or null field). */
  datatype Request = Request(itype: Option<string>, category: Option<string>, latitude: Option<real>, longitude: Option<real>)

  /** The services the app registers: the intelligence engine and the dispatch
      engine, whose cell index is also the app's `hex_service`. */
  datatype Backend = Backend(intel: Intelligence.Engine, dispatch: Dispatch.Engine)

  /** What the create endpoints answer. */
  datatype CreateResponse =
    | BadRequest(error: string)
    | Created(incidentId: IncidentId, incident: Incident, outcome: Dispatch.Outcome, alerts: seq<Alert>)

  /** The type the web endpoint accepts: `type`, present even when empty.
      Wherever it is non-empty the Telegram endpoint reads the same type; where
      it is absent or empty the Telegram endpoint falls back to `category`. */
  function WebType(req: Request): (t: Option<string>)
    ensures t.Some? && t.value != "" ==> TelegramType(req) == t
    ensures t.None? || t.value == "" ==>
      TelegramType(req) == if req.category.Some? && req.category.value != "" then req.category else None
  {
    req.itype
  }

  /** `payload.get("type") or payload.get("category", "")`, `None` when the result is falsy. */
  function TelegramType(req: Request): (t: Option<string>)
    ensures t.Some? ==> t.value != ""
    ensures req.itype.Some? && req.itype.value != "" ==> t == req.itype
    ensures (req.itype.None? || req.itype.value == "") ==>
      (t.Some? <==> req.category.Some? && req.category.value != "") && (t.Some? ==> t == req.category)
  {
    if req.itype.Some? && req.itype.value != "" then req.itype
    else if req.category.Some? && req.category.value != "" then req.category
    else None
  }

  /** `create_incident` (`POST /api/incidents`): 400 unless type, latitude and longitude are all present. */
  method CreateIncident(backend: Backend, db: Db, corridor: Corridor.Engine, labels: HexLabels.LabelCache,
                        req: Request, now: real, labelsUp: bool)
    returns (resp: CreateResponse)
    modifies db, corridor, labels
    ensures resp.BadRequest? <==> WebType(req).None? || req.latitude.None? || req.longitude.None?
    ensures resp.BadRequest? ==> Unchanged(db, corridor, labels, old(db.vehicles), old(db.incidents), old(db.cells),
                                           old(db.alerts), old(db.events), old(corridor.Snapshot()), old(labels.cache))
    ensures resp.Created? ==>
      && WebType(req).Some? && req.latitude.Some? && req.longitude.Some?
      && Pipelined(backend, resp, NormalizeIncidentType(WebType(req).value), LatLng(req.latitude.value, req.longitude.value),
                   now, labelsUp,
                   old(db.vehicles), old(db.incidents), old(db.cells), old(db.alerts), old(corridor.Snapshot()), old(labels.cache), old(db.events),
                   db.vehicles, db.incidents, db.cells, db.alerts, corridor.Snapshot(), labels.cache, db.events)
    ensures old(db.Consistent()) ==> db.Consistent()
  {
    if WebType(req).None? || req.latitude.None? || req.longitude.None? {
      return BadRequest("Invalid payload. Required: type, latitude, longitude");
    }
    resp := StoreAndProcess(backend, db, corridor, labels, WebType(req).value, LatLng(req.latitude.value, req.longitude.value), now, labelsUp);
  }

  /** `create_incident_telegram` (`POST /api/incidents/telegram`): `category`
      stands in for a missing or empty `type`; 400 when neither is given or a
      coordinate is missing. */
  method CreateIncidentTelegram(backend: Backend, db: Db, corridor: Corridor.Engine, labels: HexLabels.LabelCache,
                                req: Request, now: real, labelsUp: bool)
    returns (resp: CreateResponse)
    modifies db, corridor, labels
    ensures resp.BadRequest? <==> TelegramType(req).None? || req.latitude.None? || req.longitude.None?
    ensures resp.BadRequest? ==> Unchanged(db, corridor, labels, old(db.vehicles), old(db.incidents), old(db.cells),
                                           old(db.alerts), old(db.events), old(corridor.Snapshot()), old(labels.cache))
    ensures resp.Created? ==>
      && TelegramType(req).Some? && req.latitude.Some? && req.longitude.Some?
      && Pipelined(backend, resp, NormalizeIncidentType(TelegramType(req).value), LatLng(req.latitude.value, req.longitude.value),
                   now, labelsUp,
                   old(db.vehicles), old(db.incidents), old(db.cells), old(db.alerts), old(corridor.Snapshot()), old(labels.cache), old(db.events),
                   db.vehicles, db.incidents, db.cells, db.alerts, corridor.Snapshot(), labels.cache, db.events)
    ensures old(db.Consistent()) ==> db.Consistent()
  {
    var itype := TelegramType(req);
    if itype.None? || req.latitude.None? || req.longitude.None? {
      return BadRequest("Invalid payload. Required: type/category, latitude, longitude");
    }
    resp := StoreAndProcess(backend, db, corridor, labels, itype.value, LatLng(req.latitude.value, req.longitude.value), now, labelsUp);
  }

  /** Nothing in the store, the corridor or the label cache moved. */
  ghost predicate Unchanged(db: Db, corridor: Corridor.Engine, labels: HexLabels.LabelCache,
                            vehicles: map<VehicleId, Vehicle>, incidents: map<IncidentId, Incident>, cells: map<CellId, Cell>,
                            alerts: seq<Alert>, events: seq<Event>, snapshot: Corridor.State, cache: Option<map<CellId, string>>)
    reads db, corridor, labels
  {
    && db.vehicles == vehicles && db.incidents == incidents && db.cells == cells
    && db.alerts == alerts && db.events == events
    && corridor.Snapshot() == snapshot && labels.cache == cache
  }

  /** What a successful create does, from the state before (`...0`) to the
      state after: a fresh row of the normalised type in the point's cell, the
      cell added first if it was missing; the density processing against the
      table holding that row (the cell's count and score refreshed, the alerts
      stored and emitted); then one dispatch of that row, with everything
      `Dispatch.Dispatches` says of it; and `new_incident` emitted last. The
      answer carries the row as the dispatch left it. */
  ghost predicate Pipelined(backend: Backend, resp: CreateResponse, dbType: string, pos: LatLng, now: real, labelsUp: bool,
                            vehicles0: map<VehicleId, Vehicle>, incidents0: map<IncidentId, Incident>, cells0: map<CellId, Cell>,
                            alerts0: seq<Alert>, corridor0: Corridor.State, cache0: Option<map<CellId, string>>, events0: seq<Event>,
                            vehicles: map<VehicleId, Vehicle>, incidents: map<IncidentId, Incident>, cells: map<CellId, Cell>,
                            alerts: seq<Alert>, corridor: Corridor.State, cache: Option<map<CellId, string>>, events: seq<Event>)
  {
    var hexId := HexService.HexIdOf(backend.dispatch.hexes, pos.lat, pos.lng);
    var row := NewIncident(dbType, pos, hexId);
    var cells1 := if hexId in cells0 then cells0 else cells0[hexId := HexService.NewCell(backend.dispatch.hexes, hexId)];
    && resp.Created?
    && resp.incidentId !in incidents0
    && var incidents1 := incidents0[resp.incidentId := row];
    && resp.alerts == Intelligence.AlertsFor(backend.intel, cells1, incidents1, row)
    && cells == Intelligence.CellsAfter(backend.intel, cells1, incidents1, hexId)
    && alerts == alerts0 + resp.alerts
    && var emitted := events0 + Intelligence.Emitted(resp.alerts);
    && (resp.outcome.Dispatched? ==> resp.outcome.vehicleId in vehicles0)
    && var dispatched := emitted + Dispatch.Emits(resp.incidentId, row, vehicles0, cache, resp.outcome);
    && Dispatch.Dispatches(backend.dispatch, resp.incidentId, row, now, labelsUp, cells,
                           vehicles0, incidents1, corridor0, cache0, emitted,
                           resp.outcome, vehicles, incidents, corridor, cache, dispatched)
    && events == dispatched + [NewIncidentEvent(resp.incidentId)]
    && resp.incidentId in incidents && resp.incident == incidents[resp.incidentId]
  }

  /** The part both create endpoints share: find the cell and make sure it is
      stored, insert the incident with the normalised type and status "new",
      run the density checks, then dispatch, then announce the incident. */
  method StoreAndProcess(backend: Backend, db: Db, corridor: Corridor.Engine, labels: HexLabels.LabelCache,
                         rawType: string, pos: LatLng, now: real, labelsUp: bool)
    returns (resp: CreateResponse)
    modifies db, corridor, labels
    ensures Pipelined(backend, resp, NormalizeIncidentType(rawType), pos, now, labelsUp,
                      old(db.vehicles), old(db.incidents), old(db.cells), old(db.alerts), old(corridor.Snapshot()), old(labels.cache), old(db.events),
                      db.vehicles, db.incidents, db.cells, db.alerts, corridor.Snapshot(), labels.cache, db.events)
    ensures old(db.Consistent()) ==> db.Consistent()
  {
    var dbType := NormalizeIncidentType(rawType);
    var id, row := InsertIncident(backend.dispatch.hexes, db, dbType, pos);
    ghost var incidents1 := db.incidents;
    assert incidents1 == old(db.incidents)[id := row];
    var alerts := Intelligence.ProcessIncident(backend.intel, db, row);
    ghost var emitted := db.events;
    var outcome, latest := DispatchAndAnnounce(backend, db, corridor, labels, id, row, now, labelsUp);
    resp := Created(id, latest, outcome, alerts);
    assert emitted == old(db.events) + Intelligence.Emitted(resp.alerts);
  }

  /** The tail of the pipeline: dispatch the stored row `id`, read it back,
      and append the `new_incident` event. */
  method DispatchAndAnnounce(backend: Backend, db: Db, corridor: Corridor.Engine, labels: HexLabels.LabelCache,
                             id: IncidentId, row: Incident, now: real, labelsUp: bool)
    returns (outcome: Dispatch.Outcome, latest: Incident)
    requires id in db.incidents
    modifies db, corridor, labels
    ensures outcome.Dispatched? ==> outcome.vehicleId in old(db.vehicles)
    ensures var dispatched := old(db.events) + Dispatch.Emits(id, row, old(db.vehicles), labels.cache, outcome);
      && Dispatch.Dispatches(backend.dispatch, id, row, now, labelsUp, old(db.cells),
                             old(db.vehicles), old(db.incidents), old(corridor.Snapshot()), old(labels.cache), old(db.events),
                             outcome, db.vehicles, db.incidents, corridor.Snapshot(), labels.cache, dispatched)
      && db.events == dispatched + [NewIncidentEvent(id)]
    ensures id in db.incidents && latest == db.incidents[id]
    ensures db.cells == old(db.cells) && db.alerts == old(db.alerts)
    ensures old(db.Consistent()) ==> db.Consistent()
  {
    outcome := Dispatch.DispatchIncident(backend.dispatch, db, corridor, labels, id, row, now, labelsUp);
    Dispatch.DispatchTouchesOneRow(backend.dispatch, id, row, now, labelsUp, db.cells, old(db.vehicles), old(db.incidents),
                                   old(corridor.Snapshot()), old(labels.cache), old(db.events),
                                   outcome, db.vehicles, db.incidents, corridor.Snapshot(), labels.cache, db.events);
    latest := db.incidents[id];
    ghost var dispatched := db.events;
    db.events := db.events + [NewIncidentEvent(id)];
    assert dispatched == old(db.events) + Dispatch.Emits(id, row, old(db.vehicles), labels.cache, outcome);
  }

  /** Find the point's cell, make sure it is stored, and insert the incident
      (status "new", the column defaults otherwise) under a fresh id. */
  method InsertIncident(hexes: HexService.Service, db: Db, dbType: string, pos: LatLng)
    returns (id: IncidentId, row: Incident)
    modifies db
    ensures id !in old(db.incidents)
    ensures row == NewIncident(dbType, pos, HexService.HexIdOf(hexes, pos.lat, pos.lng))
    ensures db.incidents == old(db.incidents)[id := row]
    ensures db.cells == if row.hexId in old(db.cells) then old(db.cells) else old(db.cells)[row.hexId := HexService.NewCell(hexes, row.hexId)]
    ensures db.vehicles == old(db.vehicles) && db.alerts == old(db.alerts) && db.events == old(db.events)
  {
    var hexId := HexService.HexIdOf(hexes, pos.lat, pos.lng);
    HexService.EnsureHexExists(hexes, db, hexId);
    ghost var unused := FreshStringExists(db.incidents.Keys);
    id :| id !in db.incidents;
    row := NewIncident(dbType, pos, hexId);
    db.incidents := db.incidents[id := row];
  }

  /** The incident a create leaves in the table, read off `Pipelined`: the
      table gains exactly the new row, which holds the chosen vehicle and
      status "assigned" when one was found and is the fresh "new" row otherwise. */
  lemma CreatedIncident(backend: Backend, resp: CreateResponse, dbType: string, pos: LatLng, now: real, labelsUp: bool,
                         vehicles0: map<VehicleId, Vehicle>, incidents0: map<IncidentId, Incident>, cells0: map<CellId, Cell>,
                         alerts0: seq<Alert>, corridor0: Corridor.State, cache0: Option<map<CellId, string>>, events0: seq<Event>,
                         vehicles: map<VehicleId, Vehicle>, incidents: map<IncidentId, Incident>, cells: map<CellId, Cell>,
                         alerts: seq<Alert>, corridor: Corridor.State, cache: Option<map<CellId, string>>, events: seq<Event>)
    requires Pipelined(backend, resp, dbType, pos, now, labelsUp, vehicles0, incidents0, cells0, alerts0, corridor0, cache0, events0,
                       vehicles, incidents, cells, alerts, corridor, cache, events)
    ensures incidents == incidents0[resp.incidentId := resp.incident]
    ensures resp.outcome.NoVehicle? ==>
      resp.incident == NewIncident(dbType, pos, HexService.HexIdOf(backend.dispatch.hexes, pos.lat, pos.lng))
    ensures resp.outcome.Dispatched? ==>
      resp.incident == NewIncident(dbType, pos, HexService.HexIdOf(backend.dispatch.hexes, pos.lat, pos.lng))
                         .(assignedVehicle := Some(resp.outcome.vehicleId), status := "assigned")
  {
    var row := NewIncident(dbType, pos, HexService.HexIdOf(backend.dispatch.hexes, pos.lat, pos.lng));
    var incidents1 := incidents0[resp.incidentId := row];
    if resp.outcome.Dispatched? {
      var served := row.(assignedVehicle := Some(resp.outcome.vehicleId), status := "assigned");
      assert incidents == incidents1[resp.incidentId := served];
      OverwriteKey(incidents0, resp.incidentId, row, served);
    }
  }

  /** The vehicle a create sends, read off `Pipelined`: none exactly when no
      vehicle could answer the normalised type, and then no vehicle changes;
      otherwise one of the candidates nearest to the incident, now busy in the
      incident's cell. */
  lemma CreatedVehicle(backend: Backend, resp: CreateResponse, dbType: string, pos: LatLng, now: real, labelsUp: bool,
                         vehicles0: map<VehicleId, Vehicle>, incidents0: map<IncidentId, Incident>, cells0: map<CellId, Cell>,
                         alerts0: seq<Alert>, corridor0: Corridor.State, cache0: Option<map<CellId, string>>, events0: seq<Event>,
                         vehicles: map<VehicleId, Vehicle>, incidents: map<IncidentId, Incident>, cells: map<CellId, Cell>,
                         alerts: seq<Alert>, corridor: Corridor.State, cache: Option<map<CellId, string>>, events: seq<Event>)
    requires Pipelined(backend, resp, dbType, pos, now, labelsUp, vehicles0, incidents0, cells0, alerts0, corridor0, cache0, events0,
                       vehicles, incidents, cells, alerts, corridor, cache, events)
    ensures resp.outcome.NoVehicle? <==> Dispatch.CandidateIds(vehicles0, Dispatch.WantedTypes(dbType)) == {}
    ensures resp.outcome.NoVehicle? ==> vehicles == vehicles0
    ensures resp.outcome.Dispatched? ==>
      var candidates := Dispatch.CandidateIds(vehicles0, Dispatch.WantedTypes(dbType));
      && resp.outcome.vehicleId in candidates
      && (forall other :: other in candidates ==>
            backend.dispatch.distance(pos, vehicles0[resp.outcome.vehicleId].pos) <= backend.dispatch.distance(pos, vehicles0[other].pos))
      && resp.outcome.vehicleId in vehicles
      && vehicles[resp.outcome.vehicleId].status == "busy"
      && vehicles[resp.outcome.vehicleId].currentHex == Some(HexService.HexIdOf(backend.dispatch.hexes, pos.lat, pos.lng))
  {
    var hexId := HexService.HexIdOf(backend.dispatch.hexes, pos.lat, pos.lng);
    var row := NewIncident(dbType, pos, hexId);
    Dispatch.DispatchTouchesOneRow(backend.dispatch, resp.incidentId, row, now, labelsUp, cells, vehicles0, incidents0[resp.incidentId := row],
                                   corridor0, cache0, events0 + Intelligence.Emitted(resp.alerts), resp.outcome,
                                   vehicles, incidents, corridor, cache,
                                   events0 + Intelligence.Emitted(resp.alerts) + Dispatch.Emits(resp.incidentId, row, vehicles0, cache, resp.outcome));
  }

  /** The events a created incident appends, read back by position: the
      events before it are kept, one `patrol_alert` per density alert comes
      first and the `new_incident` event last. `Pipelined` appends exactly
      `Emitted(alerts) + Emits(...) + [NewIncidentEvent(id)]`. */
  lemma CreatedEventsInOrder(incidentId: IncidentId, row: Incident, vehicles0: map<VehicleId, Vehicle>,
                             cache: Option<map<CellId, string>>, outcome: Dispatch.Outcome, alerts: seq<Alert>,
                             events0: seq<Event>, events: seq<Event>)
    requires outcome.Dispatched? ==> outcome.vehicleId in vehicles0
    requires events == events0 + Intelligence.Emitted(alerts) + Dispatch.Emits(incidentId, row, vehicles0, cache, outcome)
                       + [NewIncidentEvent(incidentId)]
    ensures |events| >= |events0| + |alerts| + 2
    ensures events[..|events0|] == events0
    ensures events[|events0|..|events0| + |alerts|] == Intelligence.Emitted(alerts)
    ensures events[|events| - 1] == NewIncidentEvent(incidentId)
  {
    var emits := Dispatch.Emits(incidentId, row, vehicles0, cache, outcome);
    Dispatch.EmitsEnd(incidentId, row, vehicles0, cache, outcome);
    AppendedInOrder(events0, Intelligence.Emitted(alerts), emits, NewIncidentEvent(incidentId), events);
  }

  /** Just before the `new_incident` event comes the dispatch's
      `vehicle_dispatched`: without a vehicle it is the last dispatch event;
      with one it is followed by the `route_update` of the route sent. */
  lemma CreatedEventsEnd(incidentId: IncidentId, row: Incident, vehicles0: map<VehicleId, Vehicle>,
                         cache: Option<map<CellId, string>>, outcome: Dispatch.Outcome, alerts: seq<Alert>,
                         events0: seq<Event>, events: seq<Event>)
    requires outcome.Dispatched? ==> outcome.vehicleId in vehicles0
    requires events == events0 + Intelligence.Emitted(alerts) + Dispatch.Emits(incidentId, row, vehicles0, cache, outcome)
                       + [NewIncidentEvent(incidentId)]
    ensures outcome.NoVehicle? ==> |events| >= 2 && events[|events| - 2] == VehicleDispatched(incidentId, None, [])
    ensures outcome.Dispatched? ==>
      && |events| >= |events0| + |alerts| + 3
      && events[|events| - 3] == VehicleDispatched(incidentId, Some(outcome.vehicleId), outcome.corridorHexes)
      && events[|events| - 2] == RouteUpdate(incidentId, outcome.vehicleId, outcome.route, outcome.corridorHexes)
  {
    var emits := Dispatch.Emits(incidentId, row, vehicles0, cache, outcome);
    Dispatch.EmitsEnd(incidentId, row, vehicles0, cache, outcome);
    LastThree(events0 + Intelligence.Emitted(alerts), emits, NewIncidentEvent(incidentId), events);
  }

  /** The elements just before a final `x` are the last ones of `c`. */
  lemma LastThree<T>(a: seq<T>, c: seq<T>, x: T, s: seq<T>)
    requires s == a + c + [x]
    ensures |s| == |a| + |c| + 1
    ensures |c| >= 1 ==> s[|s| - 2] == c[|c| - 1]
    ensures |c| >= 2 ==> s[|s| - 3] == c[|c| - 2]
  {
  }

  /** Writing a key twice keeps the second value. */
  lemma OverwriteKey<K, V>(m: map<K, V>, k: K, v: V, w: V)
    ensures m[k := v][k := w] == m[k := w]
  {
  }

  /** The parts of `a + b + c + [x]`, read back by position. */
  lemma AppendedInOrder<T>(a: seq<T>, b: seq<T>, c: seq<T>, x: T, s: seq<T>)
    requires s == a + b + c + [x]
    ensures |s| == |a| + |b| + |c| + 1
    ensures s[..|a|] == a && s[|a|..|a| + |b|] == b && s[|s| - 1] == x
  {
    assert s == a + (b + (c + [x]));
    assert s[..|a|] == a;
    assert s[|a|..|a| + |b|] == b;
  }

  /** The rows `dispatch_unassigned` selects: not attended and without a vehicle. */
  function Unassigned(incidents: map<IncidentId, Incident>): set<IncidentId>
  {
    set id | id in incidents && !incidents[id].attended && incidents[id].assignedVehicle.None?
  }

  /** The incidents among `ids` that hold a vehicle in `incidents`. */
  function AssignedAmong(ids: set<IncidentId>, incidents: map<IncidentId, Incident>): set<IncidentId>
  {
    set id | id in ids && id in incidents && incidents[id].assignedVehicle.Some?
  }

  /** The selected incident `id` holds a vehicle that was a candidate for it
      before the batch, and that vehicle is now reserved in the incident's cell. */
  ghost predicate HoldsReserved(vehicles0: map<VehicleId, Vehicle>, selected: map<IncidentId, Incident>,
                                vehicles: map<VehicleId, Vehicle>, incidents: map<IncidentId, Incident>, id: IncidentId)
  {
    && id in selected && id in incidents && incidents[id].assignedVehicle.Some?
    && var v := incidents[id].assignedVehicle.value;
    && v in vehicles0 && v in vehicles
    && Dispatch.Dispatchable(vehicles0[v], Dispatch.WantedTypes(selected[id].itype))
    && vehicles[v] == Dispatch.Reserved(vehicles0[v], selected[id].hexId)
  }

  /** What the batch has done to the vehicles once the incidents `done` were
      dispatched: each of them that found a vehicle holds one reserved for it,
      no two hold the same vehicle, and every vehicle that changed is held by one. */
  ghost predicate BatchSoFar(vehicles0: map<VehicleId, Vehicle>, selected: map<IncidentId, Incident>,
                             vehicles: map<VehicleId, Vehicle>, incidents: map<IncidentId, Incident>, done: set<IncidentId>)
  {
    && vehicles.Keys == vehicles0.Keys
    && (forall id :: id in AssignedAmong(done, incidents) ==> HoldsReserved(vehicles0, selected, vehicles, incidents, id))
    && (forall a, b :: a in AssignedAmong(done, incidents) && b in AssignedAmong(done, incidents) && a != b ==>
          incidents[a].assignedVehicle != incidents[b].assignedVehicle)
    && (forall v :: v in vehicles0 && vehicles[v] != vehicles0[v] ==>
          exists id :: id in AssignedAmong(done, incidents) && incidents[id].assignedVehicle == Some(v))
  }

  /** What `dispatch_unassigned` leaves behind, from the state before (`...0`)
      to the state after: `dispatched` is the number of selected incidents
      that hold a vehicle afterwards; those rows hold it with status
      "assigned", every other row is as it was; the vehicles are reserved as
      `BatchSoFar` says; a batch that dispatched nothing changed no vehicle,
      corridor or label cache, and one that dispatched something left the
      corridor active; the label cache took at most its one load; and events
      were only appended. */
  ghost predicate DispatchedBatch(now: real, labelsUp: bool, cells: map<CellId, Cell>,
                                  vehicles0: map<VehicleId, Vehicle>, incidents0: map<IncidentId, Incident>,
                                  corridor0: Corridor.State, cache0: Option<map<CellId, string>>, events0: seq<Event>,
                                  dispatched: nat,
                                  vehicles: map<VehicleId, Vehicle>, incidents: map<IncidentId, Incident>,
                                  corridor: Corridor.State, cache: Option<map<CellId, string>>, events: seq<Event>)
  {
    var selected := Unassigned(incidents0);
    && dispatched == |AssignedAmong(selected, incidents)|
    && dispatched <= |selected|
    && incidents.Keys == incidents0.Keys
    && (forall id :: id in incidents0 && id !in AssignedAmong(selected, incidents) ==> incidents[id] == incidents0[id])
    && (forall id :: id in AssignedAmong(selected, incidents) ==>
          incidents[id] == incidents0[id].(assignedVehicle := incidents[id].assignedVehicle, status := "assigned"))
    && BatchSoFar(vehicles0, incidents0, vehicles, incidents, selected)
    && (dispatched == 0 ==> vehicles == vehicles0 && corridor == corridor0 && cache == cache0)
    && (dispatched > 0 ==> exists hexes :: corridor == Corridor.Activated(hexes, now))
    && (cache == cache0 || cache == HexLabels.CacheAfter(cache0, cells.Keys, labelsUp))
    && (selected == {} ==> incidents == incidents0 && events == events0)
    && |events| >= |events0| && events[..|events0|] == events0
  }

  /** `dispatch_unassigned`: dispatch every selected incident, in the order the
      database returns them, and count the dispatches that found a vehicle. */
  method DispatchUnassigned(backend: Backend, db: Db, corridor: Corridor.Engine, labels: HexLabels.LabelCache,
                            now: real, labelsUp: bool)
    returns (dispatched: nat)
    modifies db, corridor, labels
    ensures DispatchedBatch(now, labelsUp, db.cells, old(db.vehicles), old(db.incidents), old(corridor.Snapshot()), old(labels.cache),
                            old(db.events), dispatched, db.vehicles, db.incidents, corridor.Snapshot(), labels.cache, db.events)
    ensures db.cells == old(db.cells) && db.alerts == old(db.alerts)
    ensures old(db.Consistent()) ==> db.Consistent()
  {
    var snapshot := db.incidents;
    ghost var vehicles0, corridor0, cache0, events0 := db.vehicles, corridor.Snapshot(), labels.cache, db.events;
    var rows := ListOf(Unassigned(snapshot));
    if |rows| == 0 {
      assert Unassigned(snapshot) == {};
      NothingSelected(now, labelsUp, db.cells, vehicles0, snapshot, corridor0, cache0, events0);
      return 0;
    }
    dispatched := 0;
    BatchStart(rows, snapshot, now, labelsUp, db.cells, vehicles0, corridor0, cache0, events0);
    for i := 0 to |rows|
      invariant BatchRows(rows, i, snapshot, db.incidents, dispatched)
      invariant BatchSoFar(vehicles0, snapshot, db.vehicles, db.incidents, Done(rows, i))
      invariant BatchSide(now, labelsUp, db.cells, corridor0, cache0, events0, dispatched, corridor.Snapshot(), labels.cache, db.events)
      invariant db.cells == old(db.cells) && db.alerts == old(db.alerts)
      invariant old(db.Consistent()) ==> db.Consistent()
    {
      dispatched := DispatchRow(backend, db, corridor, labels, now, labelsUp, rows, i, snapshot, dispatched,
                                vehicles0, corridor0, cache0, events0);
    }
    BatchEnd(rows, snapshot, now, labelsUp, db.cells, vehicles0, corridor0, cache0, events0,
             dispatched, db.vehicles, db.incidents, corridor.Snapshot(), labels.cache, db.events);
  }

  /** One pass of the batch loop: dispatch the `i`-th listed row and count it
      when it found a vehicle; the batch's invariants then hold of one more row. */
  method DispatchRow(backend: Backend, db: Db, corridor: Corridor.Engine, labels: HexLabels.LabelCache,
                     now: real, labelsUp: bool, rows: seq<IncidentId>, i: nat, snapshot: map<IncidentId, Incident>,
                     dispatched: nat, ghost vehicles0: map<VehicleId, Vehicle>, ghost corridor0: Corridor.State,
                     ghost cache0: Option<map<CellId, string>>, ghost events0: seq<Event>)
    returns (count: nat)
    requires i < |rows| && BatchRows(rows, i, snapshot, db.incidents, dispatched)
    requires BatchSoFar(vehicles0, snapshot, db.vehicles, db.incidents, Done(rows, i))
    requires BatchSide(now, labelsUp, db.cells, corridor0, cache0, events0, dispatched, corridor.Snapshot(), labels.cache, db.events)
    modifies db, corridor, labels
    ensures BatchRows(rows, i + 1, snapshot, db.incidents, count)
    ensures BatchSoFar(vehicles0, snapshot, db.vehicles, db.incidents, Done(rows, i + 1))
    ensures BatchSide(now, labelsUp, db.cells, corridor0, cache0, events0, count, corridor.Snapshot(), labels.cache, db.events)
    ensures db.cells == old(db.cells) && db.alerts == old(db.alerts)
    ensures old(db.Consistent()) ==> db.Consistent()
  {
    ghost var vehicles1, incidents1, corridor1, cache1, events1 := db.vehicles, db.incidents, corridor.Snapshot(), labels.cache, db.events;
    var outcome := Dispatch.DispatchIncident(backend.dispatch, db, corridor, labels, rows[i], snapshot[rows[i]], now, labelsUp);
    RowStep(backend.dispatch, rows, i, snapshot, now, labelsUp, db.cells, dispatched, vehicles0, corridor0, cache0, events0,
            vehicles1, incidents1, corridor1, cache1, events1,
            outcome, db.vehicles, db.incidents, corridor.Snapshot(), labels.cache, db.events);
    count := if outcome.Dispatched? then dispatched + 1 else dispatched;
  }

  /** The three invariants of the batch loop carried over one dispatch. */
  lemma RowStep(engine: Dispatch.Engine, rows: seq<IncidentId>, i: nat, snapshot: map<IncidentId, Incident>, now: real, labelsUp: bool,
                cells: map<CellId, Cell>, dispatched: nat,
                vehicles0: map<VehicleId, Vehicle>, corridor0: Corridor.State, cache0: Option<map<CellId, string>>, events0: seq<Event>,
                vehicles1: map<VehicleId, Vehicle>, incidents1: map<IncidentId, Incident>,
                corridor1: Corridor.State, cache1: Option<map<CellId, string>>, events1: seq<Event>,
                outcome: Dispatch.Outcome,
                vehicles: map<VehicleId, Vehicle>, incidents: map<IncidentId, Incident>,
                corridor: Corridor.State, cache: Option<map<CellId, string>>, events: seq<Event>)
    requires i < |rows| && BatchRows(rows, i, snapshot, incidents1, dispatched)
    requires BatchSoFar(vehicles0, snapshot, vehicles1, incidents1, Done(rows, i))
    requires BatchSide(now, labelsUp, cells, corridor0, cache0, events0, dispatched, corridor1, cache1, events1)
    requires Dispatch.Dispatches(engine, rows[i], snapshot[rows[i]], now, labelsUp, cells, vehicles1, incidents1, corridor1, cache1, events1,
                                 outcome, vehicles, incidents, corridor, cache, events)
    ensures var count := dispatched + (if outcome.Dispatched? then 1 else 0);
      && BatchRows(rows, i + 1, snapshot, incidents, count)
      && BatchSoFar(vehicles0, snapshot, vehicles, incidents, Done(rows, i + 1))
      && BatchSide(now, labelsUp, cells, corridor0, cache0, events0, count, corridor, cache, events)
  {
    RowsStep(engine, rows, i, snapshot, now, labelsUp, cells, dispatched, vehicles1, incidents1, corridor1, cache1, events1,
             outcome, vehicles, incidents, corridor, cache, events);
    BatchStep(engine, rows, i, snapshot, now, labelsUp, cells, vehicles0, vehicles1, incidents1, corridor1, cache1, events1,
              outcome, vehicles, incidents, corridor, cache, events);
    SideStep(engine, rows[i], snapshot[rows[i]], now, labelsUp, cells, corridor0, cache0, events0, dispatched,
             vehicles1, incidents1, corridor1, cache1, events1,
             outcome, vehicles, incidents, corridor, cache, events);
  }

  /** `rows` lists the elements of `s`, each once. */
  ghost predicate ListsOnce(rows: seq<IncidentId>, s: set<IncidentId>)
  {
    && (forall x :: x in s <==> x in rows)
    && (forall p, q :: 0 <= p < q < |rows| ==> rows[p] != rows[q])
  }

  /** The rows of the batch after the first `i` of `rows`: the rows still to
      come are untouched, the rows that found a vehicle hold it with status
      "assigned", every other row is as it was, and `dispatched` counts the
      rows done that hold a vehicle. */
  ghost predicate BatchRows(rows: seq<IncidentId>, i: nat, snapshot: map<IncidentId, Incident>,
                            incidents: map<IncidentId, Incident>, dispatched: nat)
  {
    && i <= |rows|
    && (forall j :: 0 <= j < |rows| ==> rows[j] in Unassigned(snapshot))
    && (forall p, q :: 0 <= p < q < |rows| ==> rows[p] != rows[q])
    && incidents.Keys == snapshot.Keys
    && (forall j :: i <= j < |rows| ==> incidents[rows[j]] == snapshot[rows[j]])
    && (forall id :: id in snapshot && id !in AssignedAmong(Done(rows, i), incidents) ==> incidents[id] == snapshot[id])
    && (forall id :: id in AssignedAmong(Done(rows, i), incidents) ==>
          incidents[id] == snapshot[id].(assignedVehicle := incidents[id].assignedVehicle, status := "assigned"))
    && dispatched == |AssignedAmong(Done(rows, i), incidents)|
  }

  /** The corridor, the label cache and the events during the batch. */
  ghost predicate BatchSide(now: real, labelsUp: bool, cells: map<CellId, Cell>,
                            corridor0: Corridor.State, cache0: Option<map<CellId, string>>, events0: seq<Event>,
                            dispatched: nat, corridor: Corridor.State, cache: Option<map<CellId, string>>, events: seq<Event>)
  {
    && (dispatched == 0 ==> corridor == corridor0 && cache == cache0)
    && (dispatched > 0 ==> exists hexes :: corridor == Corridor.Activated(hexes, now))
    && (cache == cache0 || cache == HexLabels.CacheAfter(cache0, cells.Keys, labelsUp))
    && |events| >= |events0| && events[..|events0|] == events0
  }

  /** With nothing selected the batch changes nothing. */
  lemma NothingSelected(now: real, labelsUp: bool, cells: map<CellId, Cell>, vehicles0: map<VehicleId, Vehicle>,
                        snapshot: map<IncidentId, Incident>, corridor0: Corridor.State, cache0: Option<map<CellId, string>>, events0: seq<Event>)
    requires Unassigned(snapshot) == {}
    ensures DispatchedBatch(now, labelsUp, cells, vehicles0, snapshot, corridor0, cache0, events0,
                            0, vehicles0, snapshot, corridor0, cache0, events0)
  {
    assert Unassigned(snapshot) == {};
    assert AssignedAmong({}, snapshot) == {};
  }

  /** Before the first row the invariant holds of the untouched state. */
  lemma BatchStart(rows: seq<IncidentId>, snapshot: map<IncidentId, Incident>, now: real, labelsUp: bool,
                   cells: map<CellId, Cell>, vehicles0: map<VehicleId, Vehicle>,
                   corridor0: Corridor.State, cache0: Option<map<CellId, string>>, events0: seq<Event>)
    requires ListsOnce(rows, Unassigned(snapshot))
    ensures BatchRows(rows, 0, snapshot, snapshot, 0)
    ensures BatchSoFar(vehicles0, snapshot, vehicles0, snapshot, Done(rows, 0))
    ensures BatchSide(now, labelsUp, cells, corridor0, cache0, events0, 0, corridor0, cache0, events0)
  {
    assert Done(rows, 0) == {};
    assert AssignedAmong({}, snapshot) == {};
  }

  /** One dispatch keeps `BatchRows`, the count going up exactly when it found a vehicle. */
  lemma RowsStep(engine: Dispatch.Engine, rows: seq<IncidentId>, i: nat, snapshot: map<IncidentId, Incident>, now: real, labelsUp: bool,
                 cells: map<CellId, Cell>, dispatched: nat,
                     vehicles1: map<VehicleId, Vehicle>, incidents1: map<IncidentId, Incident>,
                     corridor1: Corridor.State, cache1: Option<map<CellId, string>>, events1: seq<Event>,
                     outcome: Dispatch.Outcome,
                     vehicles: map<VehicleId, Vehicle>, incidents: map<IncidentId, Incident>,
                     corridor: Corridor.State, cache: Option<map<CellId, string>>, events: seq<Event>)
    requires i < |rows| && BatchRows(rows, i, snapshot, incidents1, dispatched)
    requires Dispatch.Dispatches(engine, rows[i], snapshot[rows[i]], now, labelsUp, cells, vehicles1, incidents1, corridor1, cache1, events1,
                                 outcome, vehicles, incidents, corridor, cache, events)
    ensures BatchRows(rows, i + 1, snapshot, incidents, dispatched + (if outcome.Dispatched? then 1 else 0))
  {
    var id := rows[i];
    Dispatch.DispatchTouchesOneRow(engine, id, snapshot[id], now, labelsUp, cells, vehicles1, incidents1,
                                   corridor1, cache1, events1, outcome, vehicles, incidents, corridor, cache, events);
    CountStep(rows, i, incidents1, incidents, outcome.Dispatched?);
    BatchRowsStep(rows, i, snapshot, incidents1, incidents, outcome.Dispatched?);
  }

  /** One dispatch keeps `BatchSide`. */
  lemma SideStep(engine: Dispatch.Engine, id: IncidentId, incident: Incident, now: real, labelsUp: bool,
                 cells: map<CellId, Cell>, corridor0: Corridor.State, cache0: Option<map<CellId, string>>, events0: seq<Event>,
                 dispatched: nat,
                     vehicles1: map<VehicleId, Vehicle>, incidents1: map<IncidentId, Incident>,
                     corridor1: Corridor.State, cache1: Option<map<CellId, string>>, events1: seq<Event>,
                     outcome: Dispatch.Outcome,
                     vehicles: map<VehicleId, Vehicle>, incidents: map<IncidentId, Incident>,
                     corridor: Corridor.State, cache: Option<map<CellId, string>>, events: seq<Event>)
    requires BatchSide(now, labelsUp, cells, corridor0, cache0, events0, dispatched, corridor1, cache1, events1)
    requires Dispatch.Dispatches(engine, id, incident, now, labelsUp, cells, vehicles1, incidents1, corridor1, cache1, events1,
                                 outcome, vehicles, incidents, corridor, cache, events)
    ensures BatchSide(now, labelsUp, cells, corridor0, cache0, events0, dispatched + (if outcome.Dispatched? then 1 else 0),
                      corridor, cache, events)
  {
    assert events[..|events0|] == events1[..|events0|];
  }

  /** The row facts of the invariant, carried over one dispatch. */
  lemma BatchRowsStep(rows: seq<IncidentId>, i: nat, snapshot: map<IncidentId, Incident>,
                      before: map<IncidentId, Incident>, after: map<IncidentId, Incident>, found: bool)
    requires i < |rows| && forall j :: 0 <= j < |rows| ==> rows[j] in snapshot
    requires forall p, q :: 0 <= p < q < |rows| ==> rows[p] != rows[q]
    requires snapshot[rows[i]].assignedVehicle.None?
    requires before.Keys == snapshot.Keys && after.Keys == before.Keys
    requires forall j :: i <= j < |rows| ==> before[rows[j]] == snapshot[rows[j]]
    requires forall id :: id in snapshot && id !in AssignedAmong(Done(rows, i), before) ==> before[id] == snapshot[id]
    requires forall id :: id in AssignedAmong(Done(rows, i), before) ==>
      before[id] == snapshot[id].(assignedVehicle := before[id].assignedVehicle, status := "assigned")
    requires forall id :: id in before && id != rows[i] ==> after[id] == before[id]
    requires !found ==> after == before
    requires found ==> after[rows[i]] == before[rows[i]].(assignedVehicle := after[rows[i]].assignedVehicle, status := "assigned")
                       && after[rows[i]].assignedVehicle.Some?
    ensures forall j :: i + 1 <= j < |rows| ==> after[rows[j]] == snapshot[rows[j]]
    ensures forall id :: id in snapshot && id !in AssignedAmong(Done(rows, i + 1), after) ==> after[id] == snapshot[id]
    ensures forall id :: id in AssignedAmong(Done(rows, i + 1), after) ==>
      after[id] == snapshot[id].(assignedVehicle := after[id].assignedVehicle, status := "assigned")
  {
    assert Done(rows, i + 1) == Done(rows, i) + {rows[i]};
    assert rows[i] !in Done(rows, i);
    assert forall j :: i + 1 <= j < |rows| ==> rows[j] != rows[i];
    if found {
      assert AssignedAmong(Done(rows, i + 1), after) == AssignedAmong(Done(rows, i), before) + {rows[i]};
    } else {
      assert AssignedAmong(Done(rows, i + 1), after) == AssignedAmong(Done(rows, i), before);
    }
  }

  /** After the last row the invariant gives what the batch promises. */
  lemma BatchEnd(rows: seq<IncidentId>, snapshot: map<IncidentId, Incident>, now: real, labelsUp: bool,
                 cells: map<CellId, Cell>, vehicles0: map<VehicleId, Vehicle>,
                 corridor0: Corridor.State, cache0: Option<map<CellId, string>>, events0: seq<Event>,
                 dispatched: nat,
                 vehicles: map<VehicleId, Vehicle>, incidents: map<IncidentId, Incident>,
                 corridor: Corridor.State, cache: Option<map<CellId, string>>, events: seq<Event>)
    requires ListsOnce(rows, Unassigned(snapshot)) && |rows| > 0
    requires BatchRows(rows, |rows|, snapshot, incidents, dispatched)
    requires BatchSoFar(vehicles0, snapshot, vehicles, incidents, Done(rows, |rows|))
    requires BatchSide(now, labelsUp, cells, corridor0, cache0, events0, dispatched, corridor, cache, events)
    ensures DispatchedBatch(now, labelsUp, cells, vehicles0, snapshot, corridor0, cache0, events0,
                            dispatched, vehicles, incidents, corridor, cache, events)
  {
    var selected := Unassigned(snapshot);
    assert rows[0] in selected;
    assert Done(rows, |rows|) == selected;
    assert AssignedAmong(selected, incidents) <= selected;
    SubsetCard(AssignedAmong(selected, incidents), selected);
  }

  /** One step of the batch keeps `BatchSoFar`: a vehicle the dispatch finds is
      still a candidate, so it was untouched by the batch so far, and it is
      held by no incident dispatched before. */
  lemma BatchStep(engine: Dispatch.Engine, rows: seq<IncidentId>, i: nat, selected: map<IncidentId, Incident>,
                                     now: real, labelsUp: bool, cells: map<CellId, Cell>,
                                     vehicles0: map<VehicleId, Vehicle>,
                                     vehicles1: map<VehicleId, Vehicle>, incidents1: map<IncidentId, Incident>,
                                     corridor1: Corridor.State, cache1: Option<map<CellId, string>>, events1: seq<Event>,
                                     outcome: Dispatch.Outcome,
                                     vehicles: map<VehicleId, Vehicle>, incidents: map<IncidentId, Incident>,
                                     corridor: Corridor.State, cache: Option<map<CellId, string>>, events: seq<Event>)
    requires i < |rows| && rows[i] in selected && rows[i] in incidents1 && incidents1[rows[i]] == selected[rows[i]]
    requires incidents1[rows[i]].assignedVehicle.None?
    requires forall p, q :: 0 <= p < q < |rows| ==> rows[p] != rows[q]
    requires BatchSoFar(vehicles0, selected, vehicles1, incidents1, Done(rows, i))
    requires Dispatch.Dispatches(engine, rows[i], selected[rows[i]], now, labelsUp, cells, vehicles1, incidents1, corridor1, cache1, events1,
                                 outcome, vehicles, incidents, corridor, cache, events)
    ensures BatchSoFar(vehicles0, selected, vehicles, incidents, Done(rows, i + 1))
  {
    var id := rows[i];
    var done := Done(rows, i);
    assert Done(rows, i + 1) == done + {id};
    assert id !in done;
    if outcome.NoVehicle? {
      assert AssignedAmong(done + {id}, incidents) == AssignedAmong(done, incidents1);
    } else {
      var vid := outcome.vehicleId;
      BatchGrows(vehicles0, selected, vehicles1, incidents1, vehicles, incidents, done, id, vid);
    }
  }

  /** The batch so far grows by one incident `id` that found the vehicle `vid`. */
  lemma BatchGrows(vehicles0: map<VehicleId, Vehicle>, selected: map<IncidentId, Incident>,
                   vehicles1: map<VehicleId, Vehicle>, incidents1: map<IncidentId, Incident>,
                   vehicles: map<VehicleId, Vehicle>, incidents: map<IncidentId, Incident>,
                   done: set<IncidentId>, id: IncidentId, vid: VehicleId)
    requires BatchSoFar(vehicles0, selected, vehicles1, incidents1, done)
    requires id !in done && id in selected && id in incidents1 && incidents1[id].assignedVehicle.None?
    requires vid in vehicles1 && Dispatch.Dispatchable(vehicles1[vid], Dispatch.WantedTypes(selected[id].itype))
    requires vehicles == vehicles1[vid := Dispatch.Reserved(vehicles1[vid], selected[id].hexId)]
    requires incidents == incidents1[id := incidents1[id].(assignedVehicle := Some(vid), status := "assigned")]
    ensures BatchSoFar(vehicles0, selected, vehicles, incidents, done + {id})
  {
    FoundIsFree(vehicles0, selected, vehicles1, incidents1, done, vid);
    assert AssignedAmong(done + {id}, incidents) == AssignedAmong(done, incidents1) + {id};
    forall d | d in AssignedAmong(done + {id}, incidents)
      ensures HoldsReserved(vehicles0, selected, vehicles, incidents, d)
    {
      if d != id {
        assert HoldsReserved(vehicles0, selected, vehicles1, incidents1, d);
      }
    }
    forall v | v in vehicles0 && vehicles[v] != vehicles0[v]
      ensures exists d :: d in AssignedAmong(done + {id}, incidents) && incidents[d].assignedVehicle == Some(v)
    {
      if v == vid {
        assert id in AssignedAmong(done + {id}, incidents);
      } else {
        var d :| d in AssignedAmong(done, incidents1) && incidents1[d].assignedVehicle == Some(v);
        assert d in AssignedAmong(done + {id}, incidents);
      }
    }
  }

  /** A vehicle a dispatch can still choose is not busy, so the batch has not
      touched it and no incident dispatched so far holds it. */
  lemma FoundIsFree(vehicles0: map<VehicleId, Vehicle>, selected: map<IncidentId, Incident>,
                    vehicles1: map<VehicleId, Vehicle>, incidents1: map<IncidentId, Incident>,
                    done: set<IncidentId>, vid: VehicleId)
    requires BatchSoFar(vehicles0, selected, vehicles1, incidents1, done)
    requires vid in vehicles1 && vehicles1[vid].status != "busy"
    ensures vid in vehicles0 && vehicles1[vid] == vehicles0[vid]
    ensures forall d :: d in AssignedAmong(done, incidents1) ==> incidents1[d].assignedVehicle != Some(vid)
  {
    forall d | d in AssignedAmong(done, incidents1)
      ensures incidents1[d].assignedVehicle != Some(vid)
    {
      assert HoldsReserved(vehicles0, selected, vehicles1, incidents1, d);
    }
  }

  /** The ids of the first `i` rows. */
  function Done(rows: seq<IncidentId>, i: nat): set<IncidentId>
    requires i <= |rows|
  {
    set j | 0 <= j < i :: rows[j]
  }

  /** A subset is no larger than its superset. */
  lemma {:induction false} SubsetCard<T>(a: set<T>, b: set<T>)
    requires a <= b
    ensures |a| <= |b|
    decreases |b|
  {
    if a != {} {
      var x :| x in a;
      SubsetCard(a - {x}, b - {x});
    }
  }

  /** One step of the batch: dispatching the next selected incident adds one to
      the count of selected incidents holding a vehicle exactly when it found one. */
  lemma {:induction false} CountStep(rows: seq<IncidentId>, i: nat, before: map<IncidentId, Incident>, after: map<IncidentId, Incident>,
                                     found: bool)
    requires i < |rows| && forall p, q :: 0 <= p < q < |rows| ==> rows[p] != rows[q]
    requires rows[i] in before && before[rows[i]].assignedVehicle.None?
    requires after.Keys == before.Keys
    requires forall id :: id in before && id != rows[i] ==> after[id] == before[id]
    requires found ==> after[rows[i]].assignedVehicle.Some?
    requires !found ==> after == before
    ensures |AssignedAmong(Done(rows, i + 1), after)| == |AssignedAmong(Done(rows, i), before)| + (if found then 1 else 0)
  {
    var done := Done(rows, i);
    assert Done(rows, i + 1) == done + {rows[i]};
    assert rows[i] !in done;
    var a := AssignedAmong(done, before);
    var b := AssignedAmong(done + {rows[i]}, after);
    if found {
      assert b == a + {rows[i]};
    } else {
      assert b == a;
    }
  }

  /** The row `mark_attended` writes: attended, and resolved. */
  function AttendedRow(incident: Incident): (attended: Incident)
    ensures attended.attended && attended.status == "resolved"
    ensures attended.assignedVehicle == incident.assignedVehicle && attended.hexId == incident.hexId
  {
    incident.(attended := true, status := "resolved")
  }

  /** `UPDATE vehicles SET status = 'patrolling' WHERE id = ...` for the
      incident's vehicle, if it has one (no row, no change). */
  function Released(vehicles: map<VehicleId, Vehicle>, vehicleId: Option<VehicleId>): (after: map<VehicleId, Vehicle>)
    ensures after.Keys == vehicles.Keys
    ensures forall v :: v in vehicles && (vehicleId.None? || v != vehicleId.value) ==> after[v] == vehicles[v]
    ensures vehicleId.Some? && vehicleId.value in vehicles ==>
      after[vehicleId.value] == vehicles[vehicleId.value].(status := "patrolling")
  {
    if vehicleId.Some? && vehicleId.value in vehicles
    then vehicles[vehicleId.value := vehicles[vehicleId.value].(status := "patrolling")]
    else vehicles
  }

  /** What `mark_attended` answers. */
  datatype AttendResponse = NotFound | Attended

  /** `mark_attended(incident_id)` (`PATCH /api/incidents/<id>/attended`): 404
      for an unknown id; otherwise the incident is attended and resolved, its
      vehicle (if any) goes back to patrolling and is announced, the corridor is
      cleared and `incident_attended` is emitted. */
  method MarkAttended(db: Db, corridor: Corridor.Engine, incidentId: IncidentId) returns (resp: AttendResponse)
    modifies db, corridor
    ensures resp == NotFound <==> incidentId !in old(db.incidents)
    ensures resp == NotFound ==>
      && db.incidents == old(db.incidents) && db.vehicles == old(db.vehicles) && db.events == old(db.events)
      && corridor.Snapshot() == old(corridor.Snapshot())
    ensures resp == Attended ==>
      var vehicleId := old(db.incidents)[incidentId].assignedVehicle;
      && db.incidents == old(db.incidents)[incidentId := AttendedRow(old(db.incidents)[incidentId])]
      && db.vehicles == Released(old(db.vehicles), vehicleId)
      && corridor.Snapshot() == Corridor.Cleared()
      && db.events == old(db.events)
           + (if vehicleId.Some? && vehicleId.value in old(db.vehicles) then [VehiclePosition(vehicleId.value)] else [])
           + [IncidentAttendedEvent(incidentId)]
    ensures db.cells == old(db.cells) && db.alerts == old(db.alerts)
    ensures old(db.Consistent()) ==> db.Consistent()
  {
    if incidentId !in db.incidents {
      return NotFound;
    }
    var vehicleId := db.incidents[incidentId].assignedVehicle;
    db.incidents := db.incidents[incidentId := AttendedRow(db.incidents[incidentId])];
    if vehicleId.Some? {
      db.vehicles := Released(db.vehicles, vehicleId);
      if vehicleId.value in db.vehicles {
        db.events := db.events + [VehiclePosition(vehicleId.value)];
      }
    }
    corridor.Clear();
    db.events := db.events + [IncidentAttendedEvent(incidentId)];
    return Attended;
  }

  /** An attended incident is never selected by the batch dispatch again. */
  lemma AttendedLeavesBatch(incidents: map<IncidentId, Incident>, id: IncidentId)
    requires id in incidents
    ensures Unassigned(incidents[id := AttendedRow(incidents[id])]) == Unassigned(incidents) - {id}
  {
  }

  /** The released vehicle is a dispatch candidate again for every incident type its type serves. */
  lemma ReleasedIsCandidate(vehicles: map<VehicleId, Vehicle>, vehicleId: VehicleId, wanted: set<VehicleType>)
    requires vehicleId in vehicles && vehicles[vehicleId].vtype in wanted
    ensures vehicleId in Dispatch.CandidateIds(Released(vehicles, Some(vehicleId)), wanted)
  {
  }
}
