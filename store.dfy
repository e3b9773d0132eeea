/** The PostgreSQL tables the core reads and writes (`vehicles`, `incidents`,
    `hex_cells`, `patrol_alerts`) and the Socket.IO events it emits, as one
    in-memory object. Each SQL statement of the core becomes a read or an
    update of one of these fields; the emit log only ever grows. */
module Store {
  import opened Common
  import opened Geo
  import opened RouteService
  import opened StringOrder

  /** Row ids are UUIDs from `gen_random_uuid()`, handled as strings. */
  type VehicleId = string
  type IncidentId = string

  /** The four vehicle types the deploy endpoint accepts. */
  datatype VehicleType = Police | Ambulance | Fire | Municipal

  /** The stored spelling of a vehicle type. */
  function TypeName(t: VehicleType): (name: string)
    ensures name in {"police", "ambulance", "fire", "municipal"}
  {
    match t
    case Police => "police"
    case Ambulance => "ambulance"
    case Fire => "fire"
    case Municipal => "municipal"
  }

  /** A `vehicles` row (without its id). `status` is free text: the deploy
      endpoint stores whatever it is given. */
  datatype Vehicle = Vehicle(vtype: VehicleType, pos: LatLng, status: string, currentHex: Option<CellId>)

  /** An `incidents` row (without its id), restricted to the columns the core uses.
      `legPhase` is NULL-able with database default 'to_scene'. */
  datatype Incident = Incident(
    itype: string,
    pos: LatLng,
    hexId: CellId,
    assignedVehicle: Option<VehicleId>,
    status: string,
    attended: bool,
    legPhase: Option<string>,
    hospital: Option<LatLng>)

  /** A freshly inserted incident, as the column defaults make it. */
  function NewIncident(itype: string, pos: LatLng, hexId: CellId): Incident
  {
    Incident(itype, pos, hexId, None, "new", false, Some("to_scene"), None)
  }

  /** A `hex_cells` row (without its key). */
  datatype Cell = Cell(center: LatLng, incidentCount: int, priorityScore: real)

  /** A `patrol_alerts` row as the core writes it. */
  datatype Alert = Alert(hexId: CellId, alertType: string, message: string)

  /** The Socket.IO events the core emits, with the parts of their payloads the model tracks. */
  datatype Event =
    | PatrolAlert(alert: Alert)
    | VehicleDispatched(incidentId: IncidentId, dispatched: Option<VehicleId>, corridor: seq<CellId>)
    | RouteUpdate(incidentId: IncidentId, vehicleId: VehicleId, route: Route, corridor: seq<CellId>)
    | RadioComm(role: string, text: string)
    | VehiclePosition(vehicleId: VehicleId)
    | IncidentAttendedEvent(incidentId: IncidentId)
    | VehicleRemoved(vehicleId: VehicleId)
    | NewIncidentEvent(incidentId: IncidentId)

  /** The foreign key `incidents.assigned_vehicle_id REFERENCES vehicles(id)`:
      every assigned vehicle exists. */
  ghost predicate NoDangling(vehicles: map<VehicleId, Vehicle>, incidents: map<IncidentId, Incident>)
  {
    forall id :: id in incidents && incidents[id].assignedVehicle.Some? ==> incidents[id].assignedVehicle.value in vehicles
  }

  /** The database together with the emit log. */
  class Db {
    var vehicles: map<VehicleId, Vehicle>
    var incidents: map<IncidentId, Incident>
    var cells: map<CellId, Cell>
    var alerts: seq<Alert>
    var events: seq<Event>

    constructor ()
      ensures vehicles == map[] && incidents == map[] && cells == map[]
      ensures alerts == [] && events == []
    {
      vehicles, incidents, cells := map[], map[], map[];
      alerts, events := [], [];
    }

    /** `SELECT hex_id FROM hex_cells ORDER BY hex_id ASC`: every stored cell once,
        strictly ascending, so each id sits at its rank among the stored ids. */
    method HexIdsAscending() returns (ids: seq<CellId>)
      ensures forall h :: h in ids <==> h in cells
      ensures |ids| == |cells|
      ensures forall i, j :: 0 <= i < j < |ids| ==> Lt(ids[i], ids[j])
      ensures forall i :: 0 <= i < |ids| ==> Rank(ids[i], cells.Keys) == i
    {
      var unordered := Common.ListOf(cells.Keys);
      ids := Sort(unordered);
      SortDistinct(unordered);
      assert forall h :: h in ids <==> h in multiset(unordered);
      assert (set x | x in ids) == cells.Keys;
      forall i | 0 <= i < |ids|
        ensures Rank(ids[i], cells.Keys) == i
      {
        IndexIsRank(ids, i);
      }
    }

    /** The foreign key holds on the stored tables. */
    ghost predicate Consistent()
      reads this
    {
      NoDangling(vehicles, incidents)
    }
  }
}
