/** Geography as the backend sees it: points, H3 cell ids, and the handful of
    h3 library calls the core makes. The h3 library is foreign code; its calls
    are carried as deterministic function values so that every model operation
    is a function of them, and nothing is assumed about their geometry beyond
    what a lemma names in its own `requires`. */
module Geo {

  /** An H3 cell id in its hexadecimal string form (e.g. "8760a2b5bffffff"). */
  type CellId = string

  /** A point as (latitude, longitude) in degrees. */
  datatype LatLng = LatLng(lat: real, lng: real)

  /** The h3 calls of the core: `latlng_to_cell`, `get_resolution`,
      `polygon_to_cells` (over an outer ring of points), `cell_to_latlng` and
      `cell_to_boundary`. */
  datatype H3 = H3(
    latLngToCell: (real, real, int) -> CellId,
    getResolution: CellId -> int,
    polygonToCells: (seq<LatLng>, int) -> set<CellId>,
    cellToLatLng: CellId -> LatLng,
    cellToBoundary: CellId -> seq<LatLng>)

  /** The library keeps its promise that `polygon_to_cells(p, r)` yields cells of resolution `r`. */
  ghost predicate PolygonCellsAtResolution(h3: H3)
  {
    forall p, r, c :: c in h3.polygonToCells(p, r) ==> h3.getResolution(c) == r
  }

  /** The library keeps its promise that `latlng_to_cell(lat, lng, r)` yields a cell of resolution `r`. */
  ghost predicate PointCellsAtResolution(h3: H3)
  {
    forall lat, lng, r :: h3.getResolution(h3.latLngToCell(lat, lng, r)) == r
  }

  /** `haversine_km`: great-circle distance in kilometres between two points. */
  type Distance = (LatLng, LatLng) -> real
}
