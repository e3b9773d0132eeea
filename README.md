# civic-one, modelled in Dafny

A model of the decision logic of the civic-one emergency-response backend
and of the pieces of its Telegram bots and dispatch map that carry logic.
Each module follows one source file:

- `Corridor`: the green-corridor engine. It holds the set of hexes whose
  traffic signals are forced green and the time that set expires.
- `Dispatch`: the capability table that decides which vehicle types answer
  an incident type, the nearest-candidate choice, the hexes of a route, and
  the dispatch itself (vehicle busy, incident assigned, corridor on the route).
- `Intelligence`: density processing of a new incident (cell count, priority
  score, the high-density and ambulance-prestation alerts and their emission).
- `HexService`: hex ids of points, the city bounding box, filling the cell
  table and the grid payload in ascending hex-id order.
- `TrafficSignals` and `SignalSimulator`: the fixed-cycle signal phases and
  the corridor override in the signal listing.
- `Incidents` and `Vehicles`: incident-type normalisation and the
  create, Telegram-create, dispatch-unassigned and mark-attended endpoints;
  vehicle deployment, deletion and the arrival / hospital-leg machine of the
  position update.
- `RouteService`: the OSRM request, the [lng, lat] swap and the straight-line fallback.
- `HexLabels` and `HexLabelsTs`: the A, B, …, A-1, … cell names of the
  backend cache and of the frontend map builder.
- `RadioComms` and `RadioRoutes`: the radio lines spoken on a dispatch and the
  radio endpoints' key, filename and template choices.
- `TelegramFlow`, `TelegramPy` and `TelegramJs`: the conversation state
  machine of the Python and the Node bots, and where the two differ.
- `MapView`: trimming a route at its vehicle and the list of routes to draw.
- `DbUrl`: the database URL scheme rewrite.

The shared modules are `Common` (options, strings, Python and JavaScript
string helpers), `Geo` (points and the h3 functions, passed as values),
`StringOrder` (code-point order of hex ids) and `Store`. `Store` is the
database as one object: maps of vehicles, incidents and cells, the alert
rows and the log of emitted socket events.

Python floats are `real`. `int()` on a float truncates, and Python's `%`
floors. The h3 library functions, the haversine distance, the clock and the
HTTP exchanges are parameters of the operations that use them. Module-level
state and database rows that the source updates in place are fields of classes
(`Corridor.Engine`, `Store.Db`, `HexLabels.LabelCache`, the bots'
`Bot`). Each method on them is proved against a function on values, and the
properties are lemmas about those functions.

## Model

| member | source | states |
|---|---|---|
| Corridor.ActivateReplaces | backend/services/green_corridor_engine.py:23-28 | for the whole 600-second window after `activate`, the visible set is exactly the given ids with duplicates collapsed, whatever was active before |
| Corridor.ActivationExpires | backend/services/green_corridor_engine.py:20-28 | strictly later than now + 600 s nothing is visible any more |
| Corridor.ClearedIsInvisible | backend/services/green_corridor_engine.py:31-36 | after `clear` (expiry 0) every read at a positive time sees an empty corridor |
| Corridor.ReadIsUnobservable | backend/services/green_corridor_engine.py:39-54 | the lazy emptying done by a read changes nothing a later read can observe and never moves the expiry |
| Corridor.Engine.constructor | backend/services/green_corridor_engine.py:15-16 | the globals start as the empty set with expiry 0 |
| Corridor.Engine.Activate | backend/services/green_corridor_engine.py:23-28 | the stored set becomes the set of the given ids and the expiry now + 600 |
| Corridor.Engine.Clear | backend/services/green_corridor_engine.py:31-36 | the stored set becomes empty and the expiry 0 |
| Corridor.Engine.IsHexInCorridor | backend/services/green_corridor_engine.py:39-45 | true iff now <= expiry (the test is a strict `>`) and the cell is stored; past expiry the set is emptied in place |
| Corridor.Engine.GetActiveHexes | backend/services/green_corridor_engine.py:48-54 | before expiry, exactly the stored cells, each once; past expiry none, and the set is emptied in place |
| Dispatch.WantedTypes | backend/services/dispatch_engine.py:16-30 | the wanted set of vehicle types is never empty |
| Dispatch.CandidateIds | backend/services/dispatch_engine.py:33-41 | the candidate query returns only stored vehicles of a wanted type whose status is "available" or "patrolling", and nothing when no type is wanted |
| Dispatch.CapabilityTable | backend/services/dispatch_engine.py:16-30 | after lower-casing: the four police types want exactly {police}, road_accident/medical exactly {ambulance}, fire exactly {fire}, the five garbage/road types exactly {municipal} (each an iff), and every other type all four vehicle types |
| Dispatch.StoredTypesWanted | backend/services/dispatch_engine.py:21-30 | of the normalised types incidents are stored with, fire and medical reach a named row, while accident, crime and civic fall through to all four vehicle types |
| Dispatch.Nearest | backend/services/dispatch_engine.py:43-51 | the result is a candidate at minimal distance from the incident, and no earlier candidate is as near (Python `min` keeps the first on ties) |
| Dispatch.NearestVehicle | backend/services/dispatch_engine.py:15-51 | None iff no vehicle is available or patrolling with a wanted type; otherwise such a vehicle at minimal distance from the incident |
| Dispatch.ExtractRouteHexes | backend/services/dispatch_engine.py:53-58 | contains the cell of every route point, nothing else, and no duplicates |
| Dispatch.DispatchIncident | backend/services/dispatch_engine.py:60-139 | no candidate: "No available vehicles", nothing but the event changes; otherwise the nearest candidate becomes busy in the incident's cell, the incident is assigned to it with status "assigned", the route is the route service's, the corridor is activated with exactly the route's cells (also returned), and the radio exchange then the two socket events are emitted; table consistency is kept |
| Dispatch.ReserveAndAssign | backend/services/dispatch_engine.py:88-95 | the two UPDATEs: only the chosen vehicle row and the incident row change, and no incident ends up assigned to a missing vehicle |
| Dispatch.AssignKeepsConsistent | backend/services/dispatch_engine.py:88-95 | assigning an incident to a stored vehicle keeps every assignment pointing at a stored vehicle |
| Dispatch.DispatchTouchesOneRow | backend/services/dispatch_engine.py:88-95 | a dispatch changes only the dispatched incident row: it gains the vehicle and status "assigned" when one was found and is unchanged otherwise; the chosen vehicle ends busy in the incident's cell and no other vehicle changes |
| Dispatch.EmitsEnd | backend/services/dispatch_engine.py:62-139 | the events of a dispatch end with the empty `vehicle_dispatched` when no vehicle was found, and with `vehicle_dispatched` followed by `route_update` when one was |
| Intelligence.DefaultEngine | backend/services/intelligence_engine.py:10-12 | the default thresholds are 5 incidents and 3 accidents |
| Intelligence.AlertsFor | backend/services/intelligence_engine.py:28-98 | at most two alerts, all for the incident's cell; the density alert is present iff the cell is stored and its incident count >= the density threshold; the pre-stationing alert iff the type is "accident" and the cell's accidents >= the accident threshold (stored cell or not); with both, density comes first |
| Intelligence.CellsAfter | backend/services/intelligence_engine.py:30-52 | only the incident's cell changes: its count becomes the number of incidents in it and its priority score rises by exactly 1.0 when the density branch fires; an unstored cell is left alone |
| Intelligence.Emitted | backend/services/intelligence_engine.py:95-96 | one `patrol_alert` event per alert, in list order |
| Intelligence.ProcessIncident | backend/services/intelligence_engine.py:28-98 | returns exactly `AlertsFor`, leaves the cell table as `CellsAfter`, appends the alerts to the alert table and emits each once in order; vehicles and incidents untouched |
| Intelligence.RefreshCell | backend/services/intelligence_engine.py:30-66 | the density half: the count refresh, the score bump and the `high_incident_density` alert, only for a stored cell |
| Intelligence.CheckAccidents | backend/services/intelligence_engine.py:68-93 | the accident half: one `ambulance_prestation_suggestion` alert exactly when the accident branch fires; the cell table untouched |
| Intelligence.EmitAlerts | backend/services/intelligence_engine.py:95-96 | the events grow by exactly `Emitted(alerts)`; nothing else changes |
| Intelligence.EmittedSnoc | backend/services/intelligence_engine.py:95-96 | emitting one more alert appends exactly one event |
| Intelligence.BelowThresholdsQuiet | backend/services/intelligence_engine.py:44-79 | below both thresholds no alert is raised and no priority score changes |
| Intelligence.StoringCountsOnce | backend/services/intelligence_engine.py:33-77 | storing a new incident adds exactly one to its cell's incident count, and to its accident count when it is an accident |
| Intelligence.IncidentAdded | backend/services/intelligence_engine.py:33-37 | the counted set grows by exactly the new incident's id |
| Intelligence.AccidentAdded | backend/services/intelligence_engine.py:69-77 | the counted accidents grow by exactly the new accident's id |
| Intelligence.DensityAlertRepeats | backend/services/intelligence_engine.py:44-66 | no de-duplication: once a stored cell is past the density threshold, every further incident in it raises the density alert (first in the list) and the score by 1.0 again |
| Intelligence.AccidentAlertRepeats | backend/services/intelligence_engine.py:68-93 | once a cell is past the accident threshold, every further accident in it raises the pre-stationing alert again |
| HexService.HexIdIgnoresBbox | backend/services/hex_service.py:16-17 | the cell of a point is a function of the point and the configured resolution only |
| HexService.IncidentCellNotStale | backend/services/hex_service.py:16-17 | where h3 keeps its resolution promise, a point's cell is at the configured resolution, so adding it to a table with no stale cell leaves none |
| HexService.BboxPolygon | backend/services/hex_service.py:31-36 | a closed five-vertex ring SW, SE, NE, NW, SW: first and last vertex equal |
| HexService.TargetHexIds | backend/services/hex_service.py:38-42 | where h3 keeps its resolution promise, every target cell is at the configured resolution, so the target set has no stale cell |
| HexService.EnsureHexExists | backend/services/hex_service.py:19-29 | a missing cell is added with its centre, incident count 0 and score 0.0; an existing cell is left as it is; nothing else changes |
| HexService.EnsureHexCellsInDb | backend/services/hex_service.py:44-70 | returns the size of target − existing (existing emptied first when any stored cell has another resolution) and leaves the table bootstrapped |
| HexService.DropIfStale | backend/services/hex_service.py:46-54 | the whole table is deleted iff some stored cell has a resolution other than the configured one; otherwise unchanged |
| HexService.InsertCells | backend/services/hex_service.py:60-69 | exactly the missing cells are added, each as a fresh row; existing rows kept |
| HexService.InsertedAll | backend/services/hex_service.py:56-70 | the insert loop's result is the bootstrapped table |
| HexService.BootstrapCoversTarget | backend/services/hex_service.py:44-70 | afterwards every target cell is stored; a stale table ends as exactly the target; otherwise every earlier row survives unchanged |
| HexService.SecondBootstrapInsertsNothing | backend/services/hex_service.py:56-58 | a second bootstrap of an unchanged region finds nothing missing (returns 0) and leaves the table as it is |
| HexService.GridPayload | backend/services/hex_service.py:76-93 | one entry per stored cell, strictly ascending by id (each at its rank among the ids), each carrying that cell's centre, count, score and boundary |
| HexService.PayloadFromAscendingIds | backend/services/hex_service.py:84-93 | mapping the rows of `ORDER BY hex_id ASC` entry by entry gives such a payload |
| TrafficSignals.Trunc | backend/routes/traffic_signals.py:29 | Python's `int(t)` truncates toward zero: the floor for t >= 0, the ceiling below |
| TrafficSignals.PyMod | backend/routes/traffic_signals.py:29 | Python's `%` takes the divisor's sign: in [0, n) for n > 0 and in (n, 0] for n < 0 |
| TrafficSignals.PyModPeriodic | backend/routes/traffic_signals.py:29 | adding any whole number of periods (of either sign) does not change the remainder |
| TrafficSignals.PyModForward | backend/routes/traffic_signals.py:29 | the same for a non-negative number of periods |
| TrafficSignals.PyModStep | backend/routes/traffic_signals.py:29 | the same for one period |
| TrafficSignals.Cycle | backend/routes/traffic_signals.py:24-26 | with non-negative timings the cycle is at least each of green_s, yellow_s and red_s, and zero exactly when all three are |
| TrafficSignals.PhaseAt | backend/routes/traffic_signals.py:28-34 | with position `(int(t) + offset_s) % cycle_s`: GREEN iff position < green_s, YELLOW iff green_s <= position < green_s + yellow_s, RED iff past both; with non-negative timings a phase is only shown when its length is positive |
| TrafficSignals.PhaseOf | backend/routes/traffic_signals.py:30-34 | GREEN iff pos < green_s; YELLOW iff green_s <= pos < green_s + yellow_s; RED otherwise |
| TrafficSignals.PhasePeriodic | backend/routes/traffic_signals.py:24-34 | on whole seconds `phase_at` repeats with period `cycle_s` = green_s + yellow_s + red_s |
| TrafficSignals.OffsetShift | backend/routes/traffic_signals.py:29 | from the epoch on, a signal with offset k >= 0 shows at t what the same signal without offset shows at t + k |
| TrafficSignals.TallyPrefix | backend/routes/traffic_signals.py:30-34 | how many positions of a cycle prefix show each phase, in closed form |
| TrafficSignals.CycleSplit | backend/routes/traffic_signals.py:24-34 | one full cycle spends exactly green_s positions GREEN, yellow_s YELLOW and red_s RED |
| TrafficSignals.SignalIdsDiffer | backend/routes/traffic_signals.py:83 | `sig_<idx>` ids of different positions differ |
| TrafficSignals.SignalOf | backend/routes/traffic_signals.py:80-88 | the signal of the junction at 1-based position idx has id `sig_<idx>`, the junction's name, position and offset, and a 74-second cycle |
| TrafficSignals.RealChennaiSignals | backend/routes/traffic_signals.py:37-90 | one signal per junction row in table order, with its name, position and offset, id `sig_<i+1>`, the default 35/4/35 timings (cycle 74) and pairwise distinct ids |
| TrafficSignals.ViewOf | backend/routes/traffic_signals.py:115-135 | one listing entry keeps the signal's id, name and position; it is GREEN iff the signal is forced (cell index present, corridor non-empty, its cell in it) or its own phase is GREEN, and otherwise shows its own phase |
| TrafficSignals.ListSignals | backend/routes/traffic_signals.py:99-136 | one entry per signal in order: GREEN when the cell index is present, the active corridor is non-empty and the signal's cell is in it, otherwise its own phase; the corridor read empties an expired set and nothing else |
| TrafficSignals.ForcedIffInCorridor | backend/routes/traffic_signals.py:119-125 | with a cell index and a non-empty corridor, GREEN exactly when the signal's cell is in the corridor, its cycle phase otherwise |
| TrafficSignals.NothingForcedWithoutCorridor | backend/routes/traffic_signals.py:105-125 | an empty or failed corridor lookup, or no cell index, forces nothing |
| SignalSimulator.Position | backend/scripts/traffic_signal_simulator.py:50 | `int(t) % cycle_s` lies in [0, cycle) for a positive cycle and in (cycle, 0] for a negative one, and differs from `int(t)` by a whole number of cycles |
| SignalSimulator.SimPhaseAt | backend/scripts/traffic_signal_simulator.py:41-55 | GREEN iff `int(t) % cycle_s` < green_s, YELLOW iff it lies in the next yellow_s seconds, RED otherwise |
| SignalSimulator.SimulatorIsZeroOffset | backend/scripts/traffic_signal_simulator.py:45-55 | the simulator's phase is the API signal's phase with offset 0 |
| SignalSimulator.DefaultSplit | backend/scripts/traffic_signal_simulator.py:37-43 | with the default timings a cycle is 74 s: 35 GREEN, 4 YELLOW, 35 RED |
| SignalSimulator.FormatPhase | backend/scripts/traffic_signal_simulator.py:74-79 | each phase's console label |
| SignalSimulator.FormatPhaseDistinct | backend/scripts/traffic_signal_simulator.py:74-79 | the labels are at least 11 characters and different phases print differently |
| SignalSimulator.SimulatedSignalsInStep | backend/scripts/traffic_signal_simulator.py:60-71 | the ten sample signals all have cycle 74 and, sharing one clock, show the same phase at any moment |
| Incidents.NormalizeIncidentType | backend/routes/incidents.py:13-32 | the stripped, lower-cased key is looked up in the table; an unknown key gives "civic"; the result is always one of the five types the incidents table accepts |
| Incidents.NormalizedRawTypes | backend/routes/incidents.py:13-26 | road_accident → accident; theft and suspicious → crime; road_damage, garbage, public_safety and public_disturbance → civic |
| Incidents.RawAccidentAndCrime | backend/routes/incidents.py:16-22 | road_accident → accident; theft and suspicious → crime |
| Incidents.RawCivic | backend/routes/incidents.py:18-23 | road_damage, garbage, public_safety and public_disturbance → civic |
| Incidents.NormalizeIdempotent | backend/routes/incidents.py:29-32 | a stored type normalises to itself, so normalising twice is normalising once |
| Incidents.CreatedTypeSpoken | backend/routes/incidents.py:53 | every type a create stores is a key of the radio phrase table, so the radio speaks it with its fixed phrase |
| Incidents.TelegramType | backend/routes/incidents.py:127-132 | a non-empty `type` wins; otherwise a non-empty `category`; otherwise nothing (a 400) |
| Incidents.WebType | backend/routes/incidents.py:38-45 | the web endpoint accepts `type` whenever it is present; where it is non-empty the Telegram endpoint reads the same type, and where it is absent or empty the Telegram endpoint falls back to a non-empty `category` |
| Incidents.CreateIncident | backend/routes/incidents.py:35-120 | 400 iff type, latitude or longitude is absent (an empty type is accepted), with nothing changed; otherwise the whole create pipeline: a fresh incident of the normalised type in the point's cell, the density refresh of the cells and the alerts stored and emitted first, then one dispatch with everything `Dispatch.DispatchIncident` promises (nearest candidate busy, row assigned, corridor on the route's cells), then `new_incident`; table consistency kept |
| Incidents.CreateIncidentTelegram | backend/routes/incidents.py:123-214 | the same pipeline, with `category` standing in for a missing or empty type; 400 iff neither is given or a coordinate is missing, with nothing changed |
| Incidents.StoreAndProcess | backend/routes/incidents.py:51-97 | the pipeline shared by both create endpoints (also lines 138-197): the row inserted with status "new" in its ensured cell, the cells left as the density refresh leaves them, the alerts appended and emitted, then the dispatch's vehicles, incident row, corridor, label cache and events, then `new_incident`; the answer is the row read back; consistency kept |
| Incidents.InsertIncident | backend/routes/incidents.py:51-62 | a fresh id, the normalised type in the point's cell with status "new", and the cell added with count 0 when missing |
| Incidents.DispatchAndAnnounce | backend/routes/incidents.py:68-97 | the dispatch of the stored row with everything `Dispatch.DispatchIncident` promises, the row read back as the dispatch left it, and `new_incident` appended after the dispatch's events; cells and alerts untouched, consistency kept |
| Incidents.CreatedIncident | backend/routes/incidents.py:51-97 | a create adds exactly one row: the fresh "new" row of the normalised type in the point's cell when no vehicle was found, and that row assigned to the chosen vehicle otherwise |
| Incidents.CreatedVehicle | backend/routes/incidents.py:67-68 | a create finds no vehicle iff no stored vehicle is a candidate for the normalised type, and then changes no vehicle; otherwise the vehicle is a candidate at least as near as every other and ends busy in the incident's cell |
| Incidents.CreatedEventsInOrder | backend/routes/incidents.py:67-97 | a create keeps the earlier events, emits one `patrol_alert` per alert first and `new_incident` last |
| Incidents.CreatedEventsEnd | backend/routes/incidents.py:68-97 | just before `new_incident` comes the dispatch's empty `vehicle_dispatched` when no vehicle was found, and otherwise `vehicle_dispatched` then `route_update` of the route sent |
| Incidents.DispatchRow | backend/routes/incidents.py:303-308 | one pass of the batch loop keeps the batch's three invariants for one more row, the count going up exactly when the dispatch found a vehicle |
| Incidents.RowStep | backend/routes/incidents.py:303-308 | one dispatch carries the row, vehicle and side invariants of the batch over to one more row |
| Incidents.RowsStep | backend/routes/incidents.py:303-308 | one dispatch keeps the row invariant: rows still to come untouched, dispatched rows assigned, the count up by one exactly when a vehicle was found |
| Incidents.BatchStep | backend/routes/incidents.py:303-308 | one dispatch keeps the vehicle invariant of the batch |
| Incidents.BatchGrows | backend/routes/incidents.py:306 | an incident that found a vehicle joins the batch so far, holding that vehicle reserved, and no earlier incident holds it |
| Incidents.FoundIsFree | backend/routes/incidents.py:306 | a vehicle the dispatch can still choose is one the batch has not touched and no incident dispatched so far holds |
| Incidents.SideStep | backend/routes/incidents.py:306 | one dispatch keeps the corridor, label-cache and event invariant of the batch |
| Incidents.BatchStart | backend/routes/incidents.py:302-303 | before the first row the batch invariants hold of the untouched state |
| Incidents.BatchEnd | backend/routes/incidents.py:303-309 | after the last row the invariants give everything the batch promises |
| Incidents.NothingSelected | backend/routes/incidents.py:299-300 | with nothing selected the batch changes nothing and answers 0 |
| Incidents.BatchRowsStep | backend/routes/incidents.py:303-308 | the row facts of the invariant carried over one dispatch |
| Incidents.DispatchUnassigned | backend/routes/incidents.py:293-309 | the count is the number of selected (unattended, unassigned) incidents that hold a vehicle afterwards, at most the number selected; those rows are assigned, all others untouched; each held vehicle was a candidate before the batch and is now busy in its incident's cell, no two rows hold the same vehicle and no other vehicle changed; the corridor was activated when something was dispatched and is unchanged otherwise, and the label cache took at most its one load; no rows: 0 and nothing changes |
| Incidents.SubsetCard | backend/routes/incidents.py:303-309 | a subset of the selected rows is no larger than the selection |
| Incidents.CountStep | backend/routes/incidents.py:306-308 | each step adds one to the count exactly when its dispatch found a vehicle |
| Incidents.AttendedRow | backend/routes/incidents.py:323-326 | the row becomes attended and "resolved", its vehicle and cell kept |
| Incidents.Released | backend/routes/incidents.py:329-334 | only the incident's vehicle, if any and stored, changes: to "patrolling" |
| Incidents.MarkAttended | backend/routes/incidents.py:312-355 | 404 iff the incident is unknown, with nothing changed; otherwise the row is attended and resolved, its vehicle goes back to patrolling and is announced, the corridor is cleared, and `incident_attended` is emitted |
| Incidents.AttendedLeavesBatch | backend/routes/incidents.py:296-326 | an attended incident leaves the batch dispatch's selection, and nothing else does |
| Incidents.ReleasedIsCandidate | backend/routes/incidents.py:331-334 | the released vehicle is a dispatch candidate again for every incident type its type serves |
| Vehicles.Hospitals | backend/routes/vehicles.py:11-15 | the fixed list holds three hospitals with distinct ids, so the nearest hospital always exists, whatever the distance |
| Vehicles.NearestHospital | backend/routes/vehicles.py:18-21 | None iff the list is empty; otherwise a listed hospital at minimal distance, no earlier one as near (first on ties) |
| Vehicles.ParseVehicleType | backend/routes/vehicles.py:48-50 | accepted iff the type is one of the four names, and then stored under that same name |
| Vehicles.ParseTypeName | backend/routes/vehicles.py:48-50 | every stored type is accepted back as itself |
| Vehicles.ClampCount | backend/routes/vehicles.py:52 | `max(1, min(count, 50))`: always in [1, 50], the count itself when it is in range, 1 below, 50 above |
| Vehicles.DeployPlacement | backend/routes/vehicles.py:55-76 | a non-empty cell id wins and must be stored (its centre is used; otherwise 404); then given coordinates with their cell; then the default point (13.0827, 80.2707) with its cell |
| Vehicles.DeployVehicles | backend/routes/vehicles.py:45-100 | 400 iff the type (default police) is not one of the four; 404 iff the cell id is unknown; otherwise exactly the clamped count of new vehicles under fresh distinct ids, all with that type, status (default patrolling) and placement, each announced in order; earlier vehicles unchanged |
| Vehicles.Announced | backend/routes/vehicles.py:98 | one `vehicle_position` event per inserted vehicle, in order |
| Vehicles.InsertVehicles | backend/routes/vehicles.py:78-98 | `count` fresh, distinct ids, each stored with the same row and announced in order; no earlier row changes |
| Vehicles.InsertedStep | backend/routes/vehicles.py:79-98 | one more insert under a fresh id keeps that relation |
| Vehicles.Unlinked | backend/routes/vehicles.py:113-117 | every incident of the vehicle, attended or not, is unassigned and set back to "new"; the others are unchanged |
| Vehicles.DeleteLeavesNoDangling | backend/routes/vehicles.py:113-118 | unassigning before deleting leaves no incident pointing at the deleted vehicle |
| Vehicles.DeleteVehicle | backend/routes/vehicles.py:103-121 | 404 iff the vehicle is unknown, with nothing changed; otherwise its incidents are unassigned, it is deleted and `vehicle_removed` is emitted; consistency kept |
| Vehicles.ActionFor | backend/routes/vehicles.py:165-249 | an ambulance on a road_accident/medical incident starts the hospital leg (to the nearest hospital) iff to_scene, within 0.15 km of the scene and a hospital exists, and resolves when to_hospital within 0.15 km of the recorded hospital (and only then); any other case resolves iff within 0.15 km of the scene and never starts a hospital leg |
| Vehicles.OnHospitalLeg | backend/routes/vehicles.py:180-183 | the row records the hospital and phase to_hospital and stays open and assigned |
| Vehicles.AmbulanceTwoLegs | backend/routes/vehicles.py:175-231 | reaching the scene starts the hospital leg rather than resolving; afterwards the scene does nothing and reaching the hospital resolves |
| Vehicles.StoredAccidentResolvesAtScene | backend/routes/vehicles.py:170-249 | an incident stored as "accident" never takes the hospital leg: any unit, ambulances included, resolves it at the scene |
| Vehicles.ResolvedLeavesOpen | backend/routes/vehicles.py:157-220 | a resolved incident leaves the vehicle's open incidents, and nothing else does |
| Vehicles.ArriveAt | backend/routes/vehicles.py:157-249 | the loop applies the action of the first open incident that has one and stops (`break`); with none, nothing changes |
| Vehicles.Act | backend/routes/vehicles.py:177-248 | hospital leg: the row moves to to_hospital, the route from the vehicle to the hospital is requested, the corridor activated with its cells and `route_update` emitted; resolve: the row is attended and resolved, the vehicle patrols, the corridor is cleared and `incident_attended` emitted |
| Vehicles.UpdateVehiclePosition | backend/routes/vehicles.py:124-251 | 400 iff the id is empty or a coordinate missing; 404 iff the vehicle is unknown, with nothing changed; otherwise the position and cell (empty → null) are written, announced, and the arrival loop runs |
| RouteService.NewService | backend/services/route_service.py:9-10 | the base URL loses exactly its trailing slashes: the result is a prefix of the configured URL, ends in no '/', and only '/' characters were removed |
| RouteService.FallbackRoute | backend/services/route_service.py:12-24 | the straight two-point segment start → end, no distance or duration, source "fallback" |
| RouteService.Endpoint | backend/services/route_service.py:35 | one endpoint is written `lng,lat`: the longitude, a comma, the latitude |
| RouteService.RouteUrl | backend/services/route_service.py:33-37 | the URL is the base URL + "/route/v1/driving/", then start and end endpoints separated by ";", then "?overview=full&geometries=geojson" |
| RouteService.SwapPairs | backend/services/route_service.py:49 | defined iff every coordinate unpacks into exactly two values; then one point per coordinate with `[lng, lat]` swapped to `(lat, lng)` |
| RouteService.GetRoute | backend/services/route_service.py:26-53 | either an "osrm" route or the fallback; the "osrm" route exactly when the request succeeds with a non-empty `routes` array whose first route's coordinates are all pairs, the fallback otherwise (a failed request, an empty `routes` array); an "osrm" route carries the first route's distance, duration and its coordinates swapped to (lat, lng), one point each |
| HexLabels.IndexToLabel | backend/utils/hex_labels.py:5-12 | indices 0..25 are the single letters A..Z; from 26 on, the letter of `index % 26`, "-" and the group `index // 26`; one character exactly for the first group |
| HexLabels.LabelInjective | backend/utils/hex_labels.py:9-12 | different indices get different labels |
| HexLabels.AlphabetDistinct | backend/utils/hex_labels.py:5 | the 26 letters are pairwise different |
| HexLabels.LetterCode | backend/utils/hex_labels.py:5 | the k-th letter is the character k places after 'A' |
| HexLabels.EnumeratedAscending | backend/utils/hex_labels.py:19-23 | enumerating the stored ids in ascending order labels each by its rank among them |
| HexLabels.EnumeratedByRank | backend/utils/hex_labels.py:20-23 | a duplicate-free enumeration whose positions are the ranks gives the rank labelling |
| HexLabels.Unlabelled | backend/utils/hex_labels.py:24 | an unknown id answers with its first 8 characters, an empty id with "?" |
| HexLabels.Lookup | backend/utils/hex_labels.py:24 | a cached id answers with its label, any other with the fallback |
| HexLabels.CacheAfter | backend/utils/hex_labels.py:15-23 | a built table is kept; an empty cache is filled iff the read succeeds, and then holds exactly the stored cell ids |
| HexLabels.LabelCache.constructor | backend/utils/hex_labels.py:6 | the cache starts empty (`None`) |
| HexLabels.LabelCache.GetHexLabel | backend/utils/hex_labels.py:15-24 | the first call builds the table over the stored cells, each labelled by its ascending rank; a built table is never rebuilt; a failing first read raises and caches nothing; the cache ends as `CacheAfter` says and the answer is the lookup in it |
| HexLabelsTs.SameRuleAsBackend | frontend/lib/hexLabels.ts:5-12 | the frontend names every index exactly as the backend does |
| HexLabelsTs.LabelInjective | frontend/lib/hexLabels.ts:5-12 | different indices get different labels |
| HexLabelsTs.LabelTable | frontend/lib/hexLabels.ts:17-20 | the map's keys are exactly the ids of the cells given |
| HexLabelsTs.ByPositionKeys | frontend/lib/hexLabels.ts:18-20 | writing one name per position leaves exactly the listed ids as keys |
| HexLabelsTs.BuildHexLabelMap | frontend/lib/hexLabels.ts:14-22 | the result is the label table over the sorted copy of the ids |
| HexLabelsTs.LabelsIgnoreInputOrder | frontend/lib/hexLabels.ts:16 | the map depends on which cells are given, not on their order |
| HexLabelsTs.EveryIdLabelled | frontend/lib/hexLabels.ts:14-22 | every given id, and nothing else, gets a label |
| HexLabelsTs.ByPositionOfDistinct | frontend/lib/hexLabels.ts:18-20 | over ids without repeats, each id gets the name of its own position |
| HexLabelsTs.LabelIsRank | frontend/lib/hexLabels.ts:14-22 | for distinct ids, each id's label is that of its rank among the ids |
| HexLabelsTs.AgreesWithBackendCache | frontend/lib/hexLabels.ts:14-22 | given the stored cells once each, the frontend map equals the table the backend cache builds |
| StringOrder.LeReflexive | backend/services/hex_service.py:81 | the id order is reflexive |
| StringOrder.LeTotal | backend/services/hex_service.py:81 | any two ids are comparable |
| StringOrder.LeAntisymmetric | backend/services/hex_service.py:81 | ids ordered both ways are equal |
| StringOrder.LeTransitive | backend/services/hex_service.py:81 | the id order is transitive |
| StringOrder.Insert | frontend/lib/hexLabels.ts:16 | inserting adds exactly the one value |
| StringOrder.InsertSorted | frontend/lib/hexLabels.ts:16 | inserting into a sorted list keeps it sorted |
| StringOrder.Sort | frontend/lib/hexLabels.ts:16 | the sort is a permutation of its input |
| StringOrder.SortSorted | frontend/lib/hexLabels.ts:16 | the sort's result is ascending |
| StringOrder.SortedUnique | frontend/lib/hexLabels.ts:16 | two ascending arrangements of the same values are the same list |
| StringOrder.SortedHeadFirst | frontend/lib/hexLabels.ts:16 | the head of an ascending list is at most any of its values |
| StringOrder.SortedTail | frontend/lib/hexLabels.ts:16 | the tail of an ascending list is ascending |
| StringOrder.TailMultiset | frontend/lib/hexLabels.ts:16 | equal permutations with equal heads have equal tails |
| StringOrder.SortIgnoresInputOrder | frontend/lib/hexLabels.ts:16 | sorting depends only on which values are sorted |
| StringOrder.SortDistinct | backend/services/hex_service.py:77-83 | distinct ids sort into a strictly ascending list |
| StringOrder.RepeatCount | frontend/lib/hexLabels.ts:16 | a value at two positions occurs at least twice |
| StringOrder.DistinctCount | frontend/lib/hexLabels.ts:16 | a duplicate-free list holds each value at most once |
| StringOrder.DistinctCard | backend/utils/hex_labels.py:20-23 | a duplicate-free list has as many values as positions |
| StringOrder.IndexIsRank | backend/utils/hex_labels.py:19-23 | in a strictly ascending list each id's index is its rank among the ids |
| Store.TypeName | backend/routes/vehicles.py:49 | each vehicle type is stored under one of the four names |
| Store.Db.constructor | backend/routes/incidents.py:7 | the store starts with empty tables and no events |
| Store.Db.HexIdsAscending | backend/utils/hex_labels.py:19 | `ORDER BY hex_id ASC`: every stored cell once, strictly ascending, each at its rank |
| Common.Lower | backend/routes/incidents.py:31 | lower-casing keeps the length and maps each character to its lower-case form (ASCII) |
| Common.PlainKey | backend/routes/incidents.py:31 | a word of lower-case letters and underscores is left alone by `strip()` and `lower()` |
| Common.RStripCharsSpec | backend/services/route_service.py:10 | `rstrip(chars)` leaves a prefix not ending in a stripped character, followed only by stripped characters |
| Common.ReplaceChar | telegram-bot/index.js:124 | replacing one character by another keeps the length, turns each occurrence into the replacement and keeps every other character |
| Common.IndexOfChar | telegram-bot/index.js:332-335 | the index of the first occurrence, or the length when there is none |
| Common.NatToString | backend/services/telegram_bot.py:229 | decimal digits only, at least one, and at least two from 10 on |
| Common.NatToStringInjective | backend/routes/traffic_signals.py:83 | different numbers render differently |
| Common.ArgMin | backend/services/dispatch_engine.py:43-51 | Python `min(xs, key=...)`: an element of least key, and no earlier element has as small a key |
| Common.FreshStringExists | backend/routes/vehicles.py:80-87 | a finite set of ids leaves an unused id, as `gen_random_uuid()` supplies |
| Common.ListOf | backend/services/green_corridor_engine.py:54 | `list(a_set)`: every element exactly once |
| RadioComms.SpeechFor | backend/services/radio_comms.py:13-24 | the stripped, lower-cased type is read through the table; any other non-empty key with underscores as spaces; an empty key as "incident"; never empty |
| RadioComms.VehicleIdShort | backend/services/radio_comms.py:27-30 | an id longer than six characters is cut to its last six; a shorter one is kept whole |
| RadioComms.HexName | backend/services/radio_comms.py:43-47 | the cell's label when the lookup succeeded, else the first 8 characters of the id, or "?" for an empty id |
| RadioComms.RadioMessages | backend/services/radio_comms.py:33-59 | control's call always comes first; the unit's reply follows iff the previous status was non-empty and "patrolling" in any case; both carry the short id and the grid name |
| RadioComms.PatrollingIgnoresCase | backend/services/radio_comms.py:57 | statuses differing only in letter case trigger the same reply |
| RadioComms.StoredTypesSpoken | backend/services/radio_comms.py:13-19 | every key of the phrase table is spoken with its own phrase |
| RadioRoutes.StaticKey | backend/routes/radio.py:22 | `rstrip(".mp3")` strips characters, not a suffix: the key is a prefix of the lower-cased name that does not end in '.', 'm', 'p' or '3', and only those characters were removed |
| RadioRoutes.StaticClip | backend/routes/radio.py:19-28 | a clip is found iff the key is "controller" or "dispatch" |
| RadioRoutes.TrailingRunIgnored | backend/routes/radio.py:22-23 | appending any run of '.', 'm', 'p', '3' (letters in either case) does not change which clip a name finds |
| RadioRoutes.ClipNamesResolve | backend/routes/radio.py:13-28 | "controller" or "dispatch" in any letter case, followed by any run of '.', 'm', 'p', '3' such as ".mp3" or ".MP3", resolves to that clip |
| RadioRoutes.ContainsDotDot | backend/routes/radio.py:44 | true iff the name contains two consecutive dots |
| RadioRoutes.AudioFilenameAllowed | backend/routes/radio.py:44-45 | a name is served iff it contains neither `..` nor `/` |
| RadioRoutes.LineFor | backend/routes/radio.py:75-80 | role "dispatch" gives the unit's reply and speaker 1; every other role gives control's call and speaker 0 |
| RadioRoutes.IncidentLine | backend/routes/radio.py:52-80 | 400 iff the vehicle id is missing or empty; otherwise the line for the normalised role, the type with underscores as spaces, and the resolved label; the label cache changes only when no label but a cell id is given, and then as one `get_hex_label` call leaves it (built over the stored cells when the read succeeds, still empty when it raises) |
| RadioRoutes.HexLabelOf | backend/routes/radio.py:62-70 | a given label wins; with no cell id, or when the cache could not be built, "the area"; otherwise the cache lookup of the cell id (its cached label, else its first 8 characters), and "the area" should that be empty |
| TelegramFlow.MenuTypeValues | backend/services/telegram_bot.py:55-65 | the category table maps each of the nine menu categories to its incident type (fire, medical, road_accident, road_damage, garbage, public_safety, theft, suspicious, public_disturbance) |
| TelegramFlow.EmergencyMenuStored | backend/services/telegram_bot.py:56-58 | once the backend normalises the type a bot sends, the emergency menu's categories are stored as fire, medical and accident |
| TelegramFlow.CivicMenuStored | backend/services/telegram_bot.py:59-61 | the civic menu's three categories are all stored as "civic" by the backend's type normalisation |
| TelegramFlow.CrimeMenuStored | backend/services/telegram_bot.py:62-64 | theft and suspicious activity are stored as "crime" and a public disturbance as "civic" |
| TelegramFlow.ReportId | backend/services/telegram_bot.py:229 | a report id starts with "CIV-", has digits after it, and contains no "_" (so a callback button's id survives the split on "_") |
| TelegramPy.IncidentType | backend/services/telegram_bot.py:122-123 | a table category gets its table type; any other category is lower-cased with each space turned into its own "_", same length, no space left |
| TelegramPy.SpacesKeptOneForOne | backend/services/telegram_bot.py:123 | for every category outside the table, any run of k spaces becomes a run of k underscores at the same place |
| TelegramPy.Confirm | backend/services/telegram_bot.py:227-288 | without a location nothing changes and nothing is posted; with one, the payload with the category's type, location and first photo size / video / voice ids is posted and the chat moves to POST_SUBMISSION remembering the report id |
| TelegramPy.Bot.constructor | backend/services/telegram_bot.py:68 | the chat-state table starts empty |
| TelegramPy.Bot.StartBotFlow | backend/services/telegram_bot.py:163-165 | the chat starts over at MAIN_MENU with no data; no other chat changes |
| TelegramPy.Bot.ConfirmComplaint | backend/services/telegram_bot.py:227-288 | the new table and the request made are exactly those of Confirm on the old table |
| TelegramPy.Bot.HandleCallback | backend/services/telegram_bot.py:291-337 | the new table and the request are those of the callback transition: menu buttons change nothing, callback_ posts the id and forgets the chat, details_ moves to ADDING_DETAILS, done forgets the chat, anything else is a category choice |
| TelegramPy.Bot.HandleMessage | backend/services/telegram_bot.py:347-406 | the new table and the request are those of the message transition (greeting, location, skip, photo, video up to 30 s, voice, details) |
| TelegramPy.GreetingStartsOnlyStateless | backend/services/telegram_bot.py:351-358 | for a chat with no state, a greeting starts the flow and any other message changes nothing |
| TelegramPy.GreetingMidConversationIgnored | backend/services/telegram_bot.py:353-358 | a greeting ("Hi ") from a chat already in a conversation does not restart it |
| TelegramPy.CategorySelected | backend/services/telegram_bot.py:333-337 | choosing a category records it and moves the chat to WAITING_FOR_LOCATION, creating its state if needed, keeping its other data and report id and every other chat |
| TelegramPy.LocationStored | backend/services/telegram_bot.py:363-368 | a location shared while waiting for one is stored and the chat waits for media; nothing is posted |
| TelegramPy.LongVideoRejected | backend/services/telegram_bot.py:385-388 | a video longer than 30 seconds leaves every chat unchanged and posts nothing |
| TelegramPy.CallbackIdIsRest | backend/services/telegram_bot.py:312-320 | a callback_ button posts everything after the first "_" as the report id and forgets the chat |
| TelegramPy.ExitsForget | backend/services/telegram_bot.py:312-331 | a callback request and "done" remove the chat's state, and typed details after a report post them with the last report id and remove it too |
| TelegramPy.HandlersKeepSettled | backend/services/telegram_bot.py:227-406 | every handler keeps every chat settled: waiting for media or past submission implies a location, past submission implies a report id |
| TelegramPy.SkipAlwaysPosts | backend/services/telegram_bot.py:231-236 | in every settled table "skip" while waiting for media posts the report, so the "Location is required" branch is unreachable through the handlers |
| TelegramPy.MediaCarriesOver | backend/services/telegram_bot.py:239-251 | nothing clears a chat's media between reports: a new category, a location and "skip" post the earlier report's photo again |
| TelegramJs.CollapseRuns | telegram-bot/index.js:124 | the whitespace-run replacement never lengthens the text and leaves no whitespace in it |
| TelegramJs.CollapseKeeps | telegram-bot/index.js:124 | the replacement keeps every non-whitespace character in order and adds exactly one "_" per maximal whitespace run |
| TelegramJs.CollapseRun | telegram-bot/index.js:124 | a maximal whitespace run becomes one "_", or nothing when it continues a run already replaced |
| TelegramJs.LowerKeepsUnderscores | telegram-bot/index.js:124 | lower-casing neither adds nor removes a "_" |
| TelegramJs.IncidentType | telegram-bot/index.js:123-125 | a table category gets its table type; any other category, lower-cased, keeps its non-whitespace characters in order, gains one "_" per whitespace run, holds no whitespace and is no longer |
| TelegramJs.CollapseIsReplace | telegram-bot/index.js:124 | on text whose only whitespace is isolated single spaces, replacing whitespace runs equals replacing each space by "_" |
| TelegramJs.BotsAgreeOnSingleSpaced | telegram-bot/index.js:123-125 | for every category whose only whitespace is isolated single spaces, the Node bot and the Python bot send the same incident type |
| TelegramJs.CollapseWord | telegram-bot/index.js:124 | a word without whitespace passes the replacement unchanged and ends any run before it |
| TelegramJs.BotsDivergeOnDoubleSpace | telegram-bot/index.js:124 | "x  y" becomes "x_y" in the Node bot but "x__y" in the Python bot |
| TelegramJs.BotsDivergeOnTab | telegram-bot/index.js:124 | "x\ty" becomes "x_y" in the Node bot and stays "x\ty" in the Python bot |
| TelegramJs.FirstIndexOf | telegram-bot/index.js:338 | the first "_" of a string is at the position where it occurs with none before it |
| TelegramJs.CallbackPrefix | telegram-bot/index.js:337-338 | data "callback_" + rest is not a menu button, starts with "callback_", and its first "_" is at index 8 with rest after it |
| TelegramJs.SecondSegment | telegram-bot/index.js:338 | the segment split("_")[1] picks holds no "_" |
| TelegramJs.CallbackSegment | telegram-bot/index.js:337-338 | for an id without "_" followed by nothing or by "_", split("_")[1] of "callback_" + id + tail is exactly the id |
| TelegramJs.Confirm | telegram-bot/index.js:184-235 | a chat without state or without a location is left alone and nothing is posted; otherwise the payload (empty file ids as null) is posted and the chat moves to POST_SUBMISSION with its report id |
| TelegramJs.Bot.constructor | telegram-bot/index.js:87 | the userStates map starts empty |
| TelegramJs.Bot.StartBotFlow | telegram-bot/index.js:127-128 | the chat starts over at MAIN_MENU with no data; no other chat changes |
| TelegramJs.Bot.ConfirmComplaint | telegram-bot/index.js:184-235 | the new map and the request made are exactly those of Confirm on the old map |
| TelegramJs.Bot.HandleCallbackQuery | telegram-bot/index.js:327-362 | the new map and the request are those of the callback transition: menu buttons change nothing, callback_ posts split("_")[1] and forgets the chat, details_ moves to ADDING_DETAILS, done forgets the chat, anything else is a category choice |
| TelegramJs.Bot.HandleMessage | telegram-bot/index.js:244-324 | the new map and the request are those of the message transition (greeting, location, skip, photo, video up to 30 s, voice, details) |
| TelegramJs.GreetingStartsOnlyStateless | telegram-bot/index.js:246-253 | for a chat with no state, a greeting starts the flow and any other message changes nothing |
| TelegramJs.LocationStored | telegram-bot/index.js:258-263 | a location shared while waiting for one is stored and the chat waits for media; nothing is posted |
| TelegramJs.LongVideoRejected | telegram-bot/index.js:294-297 | a video longer than 30 seconds leaves every chat unchanged and posts nothing |
| TelegramJs.CallbackTransitions | telegram-bot/index.js:337-362 | a category choice moves the chat to WAITING_FOR_LOCATION with that category and keeps every other chat; "done" and a callback request forget the chat |
| TelegramJs.CallbackIdsAgree | telegram-bot/index.js:337-343 | for every report id the bots generate, the Node and Python callback handlers give the same table and both post the whole id |
| TelegramJs.CallbackIdsDiverge | telegram-bot/index.js:338 | for data "callback_A_B" the Node bot posts "A" while the Python bot posts "A_B" |
| TelegramJs.HandlersKeepSettled | telegram-bot/index.js:184-362 | every handler keeps every chat settled: waiting for media or past submission implies a location, past submission implies a report id |
| MapView.VehicleEmoji | frontend/components/MapView.tsx:56-69 | one character; the plain car exactly for the types other than police, ambulance, fire and municipal |
| MapView.EmojiPerType | frontend/components/MapView.tsx:56-69 | police, ambulance, fire and municipal get four different markers |
| MapView.NearestIndex | frontend/components/MapView.tsx:266-276 | the index picked lies inside the route |
| MapView.FirstNearestUnique | frontend/components/MapView.tsx:266-276 | a point at minimal squared distance from the vehicle with every earlier point strictly farther is the one picked (the strict `<` keeps the first on ties) |
| MapView.Trimmed | frontend/components/MapView.tsx:261-278 | the trimmed route is no longer than the route, non-empty when the route is, and the route itself when it has fewer than two points or there is no vehicle |
| MapView.TrimRouteFromVehicle | frontend/components/MapView.tsx:261-278 | the scan returns the route unchanged when it has fewer than two points or no vehicle, and otherwise the route from its first nearest point on |
| MapView.TrimKeepsDestination | frontend/components/MapView.tsx:261-278 | the trimmed route is a suffix of the route, keeps its final point, and is empty only when the route was |
| MapView.TrimIdempotent | frontend/components/MapView.tsx:261-278 | trimming a trimmed route from the same vehicle changes nothing |
| MapView.FindVehicle | frontend/components/MapView.tsx:295 | None iff no vehicle has the id; otherwise the position of a vehicle with that id |
| MapView.RoutedPath | frontend/components/MapView.tsx:293-297 | the selected route is drawn as given when it has fewer than two points or no vehicle is selected, and otherwise trimmed from the selected vehicle's position |
| MapView.KeysSnoc | frontend/components/MapView.tsx:309-312 | appending a drawn route adds exactly its key to the set of keys seen |
| MapView.AllRoutedPaths | frontend/components/MapView.tsx:299-314 | the loop's list is the filter, map, filter, filter chain built up route by route |
| MapView.AllRoutedStep | frontend/components/MapView.tsx:299-314 | one more route appends its entry exactly when it is of another vehicle, keeps two points and has an unseen key |
| MapView.AllRoutedSound | frontend/components/MapView.tsx:299-314 | every drawn route has at least two points and no key is drawn twice |
| MapView.AllRoutedFromOther | frontend/components/MapView.tsx:299-307 | each drawn entry is the trimmed route of some route of another vehicle than the selected one |
| MapView.AllRoutedComplete | frontend/components/MapView.tsx:299-314 | every route of another vehicle whose trimmed path keeps two points has its key drawn |
| DbUrl.NormalizeDatabaseUrl | backend/utils/db.py:8-11 | a URL starting with postgresql+psycopg2:// gets postgresql:// and keeps the rest verbatim; any other URL is returned unchanged |
| DbUrl.NormalizedHasNoDriverScheme | backend/utils/db.py:8-11 | the normalised URL never starts with postgresql+psycopg2:// |
| DbUrl.NormalizeIdempotent | backend/utils/db.py:8-11 | normalising twice is normalising once |
| DbUrl.NormalizeMergesOnlySchemes | backend/utils/db.py:8-11 | two URLs that normalise alike are equal, or one is the other with postgresql:// swapped for postgresql+psycopg2:// |

## Left out

- SQL, connections and query execution are not modelled. The database is the `Store.Db` object and a query is a map lookup; a failing database is modelled only where the source handles the failure (the hex-label lookup in dispatch and radio).
- The h3 library, the haversine distance and the clock are parameters. No property of the hex geometry (coverage, gaps) is proved.
- Floating point is modelled as exact reals; NaN, infinities and rounding are not modelled.
- The HTTP exchanges (OSRM, the Telegram Bot API, the bots' calls to the backend) are not modelled. `RouteService.GetRoute` takes the exchange's outcome as its `fetch` parameter, and the float rendering in the request URL is the `showFloat` parameter. A bot handler returns the request it would make as an `Effect`; the bot's retries and the reply texts sent to the chat are not modelled.
- Concurrency is not modelled: the corridor engine's lock, asyncio threads, and the Node handler's state write after an `await` are all taken as sequential. The order in which the Telegram library fires several handlers for one update is not modelled either.
- The socket events are an append-only log of (event, payload) in `Store.Db`; broadcasting them is not modelled.
- Lower-casing and trimming are ASCII only, and a JSON `null` is taken as an absent key.
- DispatchUnassigned: that each dispatch of the batch takes the nearest of the vehicles still free at its turn is stated per dispatch by `Dispatch.Dispatches`; the batch contract keeps only that the vehicle was a candidate before the batch.
- HexIdOf: the cell is whatever h3 returns; its resolution is stated by `HexService.IncidentCellNotStale`, under the library's promise that a point's cell has the requested resolution.
- Dispatch.NearestVehicle: the source reads the candidates with a query that has no ORDER BY, so the model fixes no candidate order. Its contract gives some nearest candidate; the first-seen tie rule of Python `min` is stated on `Dispatch.Nearest`.
- Dispatch.DispatchIncident: the `try/except` around the corridor activation and the radio call is not modelled, because neither can raise in the model.
- Intelligence.ProcessIncident: an alert insert that returns no row (the `if alert` test false) is not modelled, since every insert returns its row. The alert rows carry no id or creation time.
- The "Failed to create / load incident" 500 responses of the incident endpoints and the `except` 500 path of `mark_attended` are not modelled, because the database never fails. `mark_attended`'s branch for an update that touches no row cannot be reached after its existence check and is not modelled.
- `list_incidents`, `list_vehicles` and the Telegram photo proxy are not modelled; they only read rows or forward bytes.
- Vehicles.DeployVehicles: `count` is an optional integer, so a count that `int()` cannot parse is not modelled; the `if row` check after each insert is always true in the model.
- Vehicles.UpdateVehiclePosition: the source writes the position before it checks that the vehicle exists; for an unknown vehicle that write touches no row, and the model changes nothing.
- Vehicles.AmbulanceTwoLegs: stated for any non-empty hospital list that has no hospital within the arrival threshold of the scene, not only for the fixed hospital list.
- TrafficSignals.PhaseAt: a signal whose cycle is zero seconds raises `ZeroDivisionError` in the source; the model requires a non-zero cycle.
- StringOrder.Le: the database's `ORDER BY hex_id ASC` collation and the frontend's `localeCompare` are both taken to be code-point order, which holds for lower-case hexadecimal ids; other collations are not modelled.
- TrafficSignals.ListSignals: the `try/except` around the per-signal cell lookup is not modelled, because the h3 lookup is a total parameter and cannot raise.
- The signal simulator's main loop, its printing and its sleeping are not modelled.
- The radio endpoints' file serving and text-to-speech (`radio_fx`, the TTS service) are not modelled, nor the existence check of a static audio file. The test emit of the radio service is not modelled either.
- The single-instance lock file of both bots is not modelled.
- TelegramPy.OnCallback: a `details_` button pressed in a chat with no state raises `KeyError` in the source; the model leaves the table unchanged. The Node bot's equivalent error is modelled the same way.
- The JavaScript lookup `CATEGORY_TO_TYPE[category]` also finds inherited keys such as "constructor"; the model looks up only the nine table keys.
- The map's rendering (React, Leaflet) is not modelled. `MapView.AllRoutedPaths` runs the filter, map, filter, filter chain as one loop over the routes.
- `DbUrl.ReplaceFirst` models Python's `str.replace(..., 1)`. The connection and query functions of the same file are not modelled.
