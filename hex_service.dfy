/** The cell index (`HexService`): maps points to H3 cells at the configured
    resolution, bootstraps the `hex_cells` table over the Chennai bounding box,
    adds single cells on demand, and serves the grid in ascending id order. */
module HexService {
  import Common
  import opened Geo
  import opened Store
  import opened StringOrder

  datatype Bbox = Bbox(south: real, north: real, west: real, east: real)

  /** A `HexService` instance: its bounding box, its resolution (7 unless
      configured otherwise) and the h3 library it calls. */
  datatype Service = Service(bbox: Bbox, resolution: int, h3: H3)

  /** `get_hex_id_from_latlng`: the cell containing (lat, lng) at the service's resolution. */
  function HexIdOf(svc: Service, lat: real, lng: real): (h: CellId)
  {
    svc.h3.latLngToCell(lat, lng, svc.resolution)
  }

  /** The cell of a point depends on the point and the resolution only, not on the bounding box. */
  lemma HexIdIgnoresBbox(a: Service, b: Service, lat: real, lng: real)
    requires a.h3 == b.h3 && a.resolution == b.resolution
    ensures HexIdOf(a, lat, lng) == HexIdOf(b, lat, lng)
  {
  }

  /** Where the library keeps its resolution promise, the cell an incident's
      point lands in is at the configured resolution, so storing it keeps a
      fresh table fresh and the next bootstrap does not drop it. */
  lemma IncidentCellNotStale(svc: Service, cells: map<CellId, Cell>, lat: real, lng: real)
    requires PointCellsAtResolution(svc.h3) && !HasStale(svc, cells.Keys)
    ensures svc.h3.getResolution(HexIdOf(svc, lat, lng)) == svc.resolution
    ensures var h := HexIdOf(svc, lat, lng);
      !HasStale(svc, (if h in cells then cells else cells[h := NewCell(svc, h)]).Keys)
  {
  }

  /** `_chennai_bbox_polygon`: the closed ring SW, SE, NE, NW, SW. */
  function BboxPolygon(svc: Service): (ring: seq<LatLng>)
    ensures |ring| == 5 && ring[0] == ring[4]
    ensures ring[0] == LatLng(svc.bbox.south, svc.bbox.west)
    ensures ring[1] == LatLng(svc.bbox.south, svc.bbox.east)
    ensures ring[2] == LatLng(svc.bbox.north, svc.bbox.east)
    ensures ring[3] == LatLng(svc.bbox.north, svc.bbox.west)
  {
    var b := svc.bbox;
    [LatLng(b.south, b.west), LatLng(b.south, b.east), LatLng(b.north, b.east),
     LatLng(b.north, b.west), LatLng(b.south, b.west)]
  }

  /** `generate_chennai_hex_ids`: the cells h3 assigns to the bounding box,
      all at the service's resolution, so none of them is ever stale. */
  function TargetHexIds(svc: Service): (target: set<CellId>)
    ensures PolygonCellsAtResolution(svc.h3) ==> forall h :: h in target ==> svc.h3.getResolution(h) == svc.resolution
    ensures PolygonCellsAtResolution(svc.h3) ==> !HasStale(svc, target)
  {
    svc.h3.polygonToCells(BboxPolygon(svc), svc.resolution)
  }

  /** The row both inserts write: the cell's centre, no incidents, score 0.0. */
  function NewCell(svc: Service, h: CellId): Cell
  {
    Cell(svc.h3.cellToLatLng(h), 0, 0.0)
  }

  /** Some stored cell was made at another resolution. */
  predicate HasStale(svc: Service, stored: set<CellId>)
  {
    exists h :: h in stored && svc.h3.getResolution(h) != svc.resolution
  }

  /** The table `ensure_hex_cells_in_db` starts inserting into: emptied when any cell is stale. */
  function BootstrapBase(svc: Service, cells: map<CellId, Cell>): map<CellId, Cell>
  {
    if HasStale(svc, cells.Keys) then map[] else cells
  }

  /** `missing = target_hexes - existing`. */
  function MissingCells(svc: Service, cells: map<CellId, Cell>): set<CellId>
  {
    TargetHexIds(svc) - BootstrapBase(svc, cells).Keys
  }

  /** The table after `ensure_hex_cells_in_db`. */
  function Bootstrapped(svc: Service, cells: map<CellId, Cell>): map<CellId, Cell>
  {
    var base := BootstrapBase(svc, cells);
    map h | h in base.Keys + MissingCells(svc, cells) :: if h in base then base[h] else NewCell(svc, h)
  }

  /** After the bootstrap every target cell is stored, and every stored cell is
      either a target cell or an earlier row kept because no row was stale. */
  lemma {:induction false} BootstrapCoversTarget(svc: Service, cells: map<CellId, Cell>)
    ensures TargetHexIds(svc) <= Bootstrapped(svc, cells).Keys
    ensures forall h :: h in Bootstrapped(svc, cells) ==>
      h in TargetHexIds(svc) || (!HasStale(svc, cells.Keys) && h in cells && Bootstrapped(svc, cells)[h] == cells[h])
    ensures HasStale(svc, cells.Keys) ==> Bootstrapped(svc, cells).Keys == TargetHexIds(svc)
    ensures !HasStale(svc, cells.Keys) ==> forall h :: h in cells ==> h in Bootstrapped(svc, cells) && Bootstrapped(svc, cells)[h] == cells[h]
  {
  }

  /** Bootstrapping is idempotent: once the library yields cells at the
      configured resolution, a second run on the same region inserts nothing
      and leaves the table as it is. */
  lemma {:induction false} SecondBootstrapInsertsNothing(svc: Service, cells: map<CellId, Cell>)
    requires PolygonCellsAtResolution(svc.h3)
    ensures MissingCells(svc, Bootstrapped(svc, cells)) == {}
    ensures Bootstrapped(svc, Bootstrapped(svc, cells)) == Bootstrapped(svc, cells)
  {
    var after := Bootstrapped(svc, cells);
    var base := BootstrapBase(svc, cells);
    assert !HasStale(svc, base.Keys);
    assert !HasStale(svc, after.Keys);
    assert BootstrapBase(svc, after) == after;
  }

  /** `ensure_hex_exists`: `INSERT ... ON CONFLICT (hex_id) DO NOTHING`. */
  method EnsureHexExists(svc: Service, db: Db, hexId: CellId)
    modifies db
    ensures db.cells == if hexId in old(db.cells) then old(db.cells) else old(db.cells)[hexId := NewCell(svc, hexId)]
    ensures db.vehicles == old(db.vehicles) && db.incidents == old(db.incidents)
    ensures db.alerts == old(db.alerts) && db.events == old(db.events)
  {
    if hexId !in db.cells {
      db.cells := db.cells[hexId := NewCell(svc, hexId)];
    }
  }

  /** `ensure_hex_cells_in_db`: drop everything if any stored cell has another
      resolution, then insert the missing target cells and report how many. */
  method EnsureHexCellsInDb(svc: Service, db: Db) returns (inserted: nat)
    modifies db
    ensures inserted == |MissingCells(svc, old(db.cells))|
    ensures db.cells == Bootstrapped(svc, old(db.cells))
    ensures db.vehicles == old(db.vehicles) && db.incidents == old(db.incidents)
    ensures db.alerts == old(db.alerts) && db.events == old(db.events)
  {
    var target := TargetHexIds(svc);
    var existing := DropIfStale(svc, db);
    ghost var before := old(db.cells);
    var missing := target - existing;
    assert missing == MissingCells(svc, before);
    if missing == {} {
      InsertedAll(svc, before, db.cells);
      return 0;
    }
    InsertCells(svc, db, missing);
    InsertedAll(svc, before, db.cells);
    return |missing|;
  }

  /** The insert loop of `ensure_hex_cells_in_db`: one new row per missing cell. */
  method InsertCells(svc: Service, db: Db, missing: set<CellId>)
    modifies db
    ensures db.cells.Keys == old(db.cells).Keys + missing
    ensures forall h :: h in db.cells ==> db.cells[h] == if h in old(db.cells) then old(db.cells)[h] else NewCell(svc, h)
    ensures db.vehicles == old(db.vehicles) && db.incidents == old(db.incidents)
    ensures db.alerts == old(db.alerts) && db.events == old(db.events)
  {
    var pending := missing;
    while pending != {}
      invariant pending <= missing
      invariant db.cells.Keys == old(db.cells).Keys + (missing - pending)
      invariant forall h :: h in db.cells ==> db.cells[h] == if h in old(db.cells) then old(db.cells)[h] else NewCell(svc, h)
      invariant db.vehicles == old(db.vehicles) && db.incidents == old(db.incidents)
      invariant db.alerts == old(db.alerts) && db.events == old(db.events)
      decreases pending
    {
      var h :| h in pending;
      if h !in db.cells {
        db.cells := db.cells[h := NewCell(svc, h)];
      }
      pending := pending - {h};
    }
  }

  /** The first loop of `ensure_hex_cells_in_db`: looks for a stored cell of
      another resolution and, at the first one found, deletes every row. */
  method DropIfStale(svc: Service, db: Db) returns (existing: set<CellId>)
    modifies db
    ensures db.cells == BootstrapBase(svc, old(db.cells)) && existing == db.cells.Keys
    ensures db.vehicles == old(db.vehicles) && db.incidents == old(db.incidents)
    ensures db.alerts == old(db.alerts) && db.events == old(db.events)
  {
    existing := db.cells.Keys;
    var unchecked := existing;
    while unchecked != {}
      invariant unchecked <= existing == old(db.cells).Keys
      invariant db.cells == old(db.cells)
      invariant forall h :: h in existing - unchecked ==> svc.h3.getResolution(h) == svc.resolution
      decreases unchecked
    {
      var h :| h in unchecked;
      if svc.h3.getResolution(h) != svc.resolution {
        db.cells := map[];
        existing := {};
        return;
      }
      unchecked := unchecked - {h};
    }
  }

  /** The insert loop of `ensure_hex_cells_in_db` ends with the bootstrapped table. */
  lemma InsertedAll(svc: Service, before: map<CellId, Cell>, table: map<CellId, Cell>)
    requires table.Keys == BootstrapBase(svc, before).Keys + MissingCells(svc, before)
    requires forall h :: h in table ==>
      table[h] == if h in BootstrapBase(svc, before) then BootstrapBase(svc, before)[h] else NewCell(svc, h)
    ensures table == Bootstrapped(svc, before)
  {
  }

  /** One element of `get_hex_grid_payload`. */
  datatype GridEntry = GridEntry(hexId: CellId, polygon: seq<LatLng>, center: LatLng, incidentCount: int, priorityScore: real)

  /** `get_hex_grid_payload`: one entry per stored cell, strictly ascending by id, each carrying that cell's row. */
  method GridPayload(svc: Service, db: Db) returns (payload: seq<GridEntry>)
    ensures IsGridPayload(svc, db.cells, payload)
  {
    var ids := db.HexIdsAscending();
    var cells := db.cells;
    payload := seq(|ids|, i requires 0 <= i < |ids| && ids[i] in cells => EntryOf(svc, cells, ids[i]));
    PayloadFromAscendingIds(svc, cells, ids, payload);
  }

  /** What the grid payload promises about the stored cells. */
  ghost predicate IsGridPayload(svc: Service, cells: map<CellId, Cell>, payload: seq<GridEntry>)
  {
    && |payload| == |cells|
    && (forall h :: h in cells <==> exists i :: 0 <= i < |payload| && payload[i].hexId == h)
    && (forall i, j :: 0 <= i < j < |payload| ==> Lt(payload[i].hexId, payload[j].hexId))
    && (forall i :: 0 <= i < |payload| ==>
          payload[i].hexId in cells && Rank(payload[i].hexId, cells.Keys) == i
          && payload[i] == EntryOf(svc, cells, payload[i].hexId))
  }

  lemma PayloadFromAscendingIds(svc: Service, cells: map<CellId, Cell>, ids: seq<CellId>, payload: seq<GridEntry>)
    requires forall h :: h in ids <==> h in cells
    requires |ids| == |cells|
    requires forall i, j :: 0 <= i < j < |ids| ==> Lt(ids[i], ids[j])
    requires forall i :: 0 <= i < |ids| ==> Rank(ids[i], cells.Keys) == i
    requires |payload| == |ids| && forall i :: 0 <= i < |ids| ==> ids[i] in cells && payload[i] == EntryOf(svc, cells, ids[i])
    ensures IsGridPayload(svc, cells, payload)
  {
    assert forall i :: 0 <= i < |payload| ==> payload[i].hexId == ids[i];
    forall h | h in cells
      ensures exists i :: 0 <= i < |payload| && payload[i].hexId == h
    {
      var i :| 0 <= i < |ids| && ids[i] == h;
      assert payload[i].hexId == h;
    }
  }

  /** The payload entry of a stored cell. */
  function EntryOf(svc: Service, cells: map<CellId, Cell>, h: CellId): GridEntry
    requires h in cells
  {
    GridEntry(h, svc.h3.cellToBoundary(h), cells[h].center, cells[h].incidentCount, cells[h].priorityScore)
  }
}
