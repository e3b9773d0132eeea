/** The route drawing of the dispatch map (`components/MapView.tsx`): the
    vehicle marker's emoji, cutting a route at the point nearest its vehicle,
    and the list of other dispatch routes to draw. Coordinates are reals; the
    browser's floating point and the rendering are not modelled. */
module MapView {
  import opened Common
  import opened Geo

  /** `getVehicleEmoji(type)`: one character; the plain car for every type
      but the four the map knows, and never for those. */
  function VehicleEmoji(vtype: string): (emoji: string)
    ensures |emoji| == 1
    ensures emoji == "\U{1F697}" <==> vtype !in {"police", "ambulance", "fire", "municipal"}
  {
    if vtype == "police" then "\U{1F693}"
    else if vtype == "ambulance" then "\U{1F691}"
    else if vtype == "fire" then "\U{1F692}"
    else if vtype == "municipal" then "\U{1F69C}"
    else "\U{1F697}"
  }

  /** The four vehicle types get four different markers. */
  lemma EmojiPerType(a: string, b: string)
    requires a in {"police", "ambulance", "fire", "municipal"} && b in {"police", "ambulance", "fire", "municipal"}
    ensures VehicleEmoji(a) == VehicleEmoji(b) <==> a == b
  {
  }

  /** The squared lat/lng distance `dx * dx + dy * dy`. */
  function D2(p: LatLng, v: LatLng): real
  {
    (p.lat - v.lat) * (p.lat - v.lat) + (p.lng - v.lng) * (p.lng - v.lng)
  }

  /** The index of the route point nearest the vehicle, the first one on ties. */
  function NearestIndex(geometry: seq<LatLng>, v: LatLng): (k: nat)
    requires |geometry| > 0
    ensures k < |geometry|
  {
    ArgMin(geometry, p => D2(p, v))
  }

  /** What `trimRouteFromVehicle` returns: the route unchanged when it has fewer
      than two points or there is no vehicle, else the route from the point
      nearest the vehicle on. */
  function Trimmed(geometry: seq<LatLng>, vehicle: Option<LatLng>): (path: seq<LatLng>)
    ensures |path| <= |geometry| && (|geometry| > 0 ==> |path| > 0)
    ensures |geometry| < 2 || vehicle.None? ==> path == geometry
  {
    if |geometry| < 2 || vehicle.None? then geometry else geometry[NearestIndex(geometry, vehicle.value)..]
  }

  /** The trimmed route is a suffix of the route and keeps its destination. */
  lemma TrimKeepsDestination(geometry: seq<LatLng>, vehicle: Option<LatLng>)
    ensures var path := Trimmed(geometry, vehicle);
      && path == geometry[|geometry| - |path|..]
      && (|geometry| > 0 ==> path[|path| - 1] == geometry[|geometry| - 1])
  {
  }

  /** An index that is nearest, with every earlier point strictly farther, is the one `NearestIndex` picks. */
  lemma FirstNearestUnique(geometry: seq<LatLng>, v: LatLng, k: nat)
    requires k < |geometry|
    requires forall j :: 0 <= j < |geometry| ==> D2(geometry[k], v) <= D2(geometry[j], v)
    requires forall j :: 0 <= j < k ==> D2(geometry[j], v) > D2(geometry[k], v)
    ensures NearestIndex(geometry, v) == k
  {
    var i := NearestIndex(geometry, v);
    var key := p => D2(p, v);
    assert forall j :: 0 <= j < i ==> key(geometry[j]) > key(geometry[i]);
    assert forall j :: 0 <= j < |geometry| ==> key(geometry[i]) <= key(geometry[j]);
  }

  /** `trimRouteFromVehicle(geometry, vehicle)`: a scan that keeps the first
      point with the least squared distance (`d2 < bestD2`, starting from
      infinity), then the slice from it. */
  method TrimRouteFromVehicle(geometry: seq<LatLng>, vehicle: Option<LatLng>) returns (path: seq<LatLng>)
    ensures path == Trimmed(geometry, vehicle)
  {
    if |geometry| < 2 || vehicle.None? {
      return geometry;
    }
    var v := vehicle.value;
    var bestIndex := 0;
    var bestD2: Option<real> := None;
    for idx := 0 to |geometry|
      invariant idx == 0 <==> bestD2.None?
      invariant bestIndex < |geometry| && (idx == 0 ==> bestIndex == 0)
      invariant idx > 0 ==> bestIndex < idx && bestD2 == Some(D2(geometry[bestIndex], v))
      invariant idx > 0 ==> forall j :: 0 <= j < idx ==> D2(geometry[bestIndex], v) <= D2(geometry[j], v)
      invariant forall j :: 0 <= j < bestIndex ==> D2(geometry[j], v) > D2(geometry[bestIndex], v)
    {
      var d2 := D2(geometry[idx], v);
      if bestD2.None? || d2 < bestD2.value {
        bestD2 := Some(d2);
        bestIndex := idx;
      }
    }
    FirstNearestUnique(geometry, v, bestIndex);
    path := geometry[bestIndex..];
  }

  /** The trimmed route starts at its own nearest point, so trimming again
      changes nothing. */
  lemma {:induction false} TrimIdempotent(geometry: seq<LatLng>, vehicle: Option<LatLng>)
    ensures Trimmed(Trimmed(geometry, vehicle), vehicle) == Trimmed(geometry, vehicle)
  {
    if |geometry| >= 2 && vehicle.Some? {
      var v := vehicle.value;
      var k := NearestIndex(geometry, v);
      var path := geometry[k..];
      if |path| >= 2 {
        forall j | 0 <= j < |path|
          ensures D2(path[0], v) <= D2(path[j], v)
        {
          assert path[j] == geometry[k + j];
        }
        FirstNearestUnique(path, v, 0);
        assert path[0..] == path;
      }
    }
  }

  /** The `routeVehicleId` prop: absent, null, or a string. */
  datatype RouteRef = Undefined | Null | Id(id: string)

  /** `String(routeVehicleId)`. */
  function JsString(r: RouteRef): string
  {
    match r
    case Undefined => "undefined"
    case Null => "null"
    case Id(s) => s
  }

  /** `!routeVehicleId` is false. */
  predicate Truthy(r: RouteRef)
  {
    r.Id? && r.id != ""
  }

  /** A vehicle as the map receives it. */
  datatype VehicleMarker = VehicleMarker(id: string, vtype: string, pos: LatLng)

  /** `vehicles.find(veh => String(veh.id) === String(id))`: the first match's position. */
  function FindVehicle(vehicles: seq<VehicleMarker>, id: string): (found: Option<LatLng>)
    ensures found.None? <==> forall i :: 0 <= i < |vehicles| ==> vehicles[i].id != id
    ensures found.Some? ==> exists i :: 0 <= i < |vehicles| && vehicles[i].id == id && found.value == vehicles[i].pos
                                        && forall j :: 0 <= j < i ==> vehicles[j].id != id
  {
    if vehicles == [] then None
    else if vehicles[0].id == id then Some(vehicles[0].pos)
    else
      var rest := FindVehicle(vehicles[1..], id);
      assert rest.Some? ==> exists i :: 0 < i < |vehicles| && vehicles[i].id == id && rest.value == vehicles[i].pos
                                        && forall j :: 0 <= j < i ==> vehicles[j].id != id by {
        if rest.Some? {
          var i :| 0 <= i < |vehicles| - 1 && vehicles[1..][i].id == id && rest.value == vehicles[1..][i].pos
                   && forall j :: 0 <= j < i ==> vehicles[1..][j].id != id;
          assert vehicles[i + 1].id == id;
          assert forall j :: 1 <= j < i + 1 ==> vehicles[j].id == vehicles[1..][j - 1].id;
        }
      }
      rest
  }

  /** The selected route (`routedPath`): trimmed from its vehicle only when the
      route has two points or more and a vehicle is selected. */
  method RoutedPath(routeGeometry: seq<LatLng>, routeVehicleId: RouteRef, vehicles: seq<VehicleMarker>) returns (path: seq<LatLng>)
    ensures |routeGeometry| < 2 || !Truthy(routeVehicleId) ==> path == routeGeometry
    ensures |routeGeometry| >= 2 && Truthy(routeVehicleId) ==>
      path == Trimmed(routeGeometry, FindVehicle(vehicles, routeVehicleId.id))
  {
    if |routeGeometry| < 2 || !Truthy(routeVehicleId) {
      return routeGeometry;
    }
    var v := FindVehicle(vehicles, JsString(routeVehicleId));
    path := TrimRouteFromVehicle(routeGeometry, v);
  }

  /** One of `allDispatchRoutes`. */
  datatype DispatchRoute = DispatchRoute(incidentId: string, vehicleId: string, geometry: seq<LatLng>)

  /** One drawn route: its `incidentId-vehicleId` key and trimmed path. */
  datatype Drawn = Drawn(key: string, path: seq<LatLng>)

  /** The key of a route. */
  function KeyOf(r: DispatchRoute): string
  {
    r.incidentId + "-" + r.vehicleId
  }

  /** The map step of the chain. */
  function DrawnOf(r: DispatchRoute, vehicles: seq<VehicleMarker>): Drawn
  {
    Drawn(KeyOf(r), Trimmed(r.geometry, FindVehicle(vehicles, r.vehicleId)))
  }

  function Keys(drawn: seq<Drawn>): set<string>
  {
    set i | 0 <= i < |drawn| :: drawn[i].key
  }

  lemma KeysSnoc(drawn: seq<Drawn>, d: Drawn)
    ensures Keys(drawn + [d]) == Keys(drawn) + {d.key}
  {
    assert forall i :: 0 <= i < |drawn| ==> (drawn + [d])[i] == drawn[i];
    assert (drawn + [d])[|drawn|] == d;
  }

  /** What the filter, map, filter, filter chain leaves of the routes, built up route by route. */
  function AllRouted(routes: seq<DispatchRoute>, vehicles: seq<VehicleMarker>, routeVehicleId: RouteRef): seq<Drawn>
  {
    if routes == [] then []
    else
      var prev := AllRouted(routes[..|routes| - 1], vehicles, routeVehicleId);
      var r := routes[|routes| - 1];
      var d := DrawnOf(r, vehicles);
      if r.vehicleId == JsString(routeVehicleId) || |d.path| < 2 || d.key in Keys(prev) then prev else prev + [d]
  }

  /** `allRoutedPaths`: the routes of other vehicles than the selected one, each
      trimmed from its vehicle, without the ones left shorter than two points,
      keeping the first route per key (the `seen` set). */
  method AllRoutedPaths(routes: seq<DispatchRoute>, vehicles: seq<VehicleMarker>, routeVehicleId: RouteRef)
    returns (drawn: seq<Drawn>)
    ensures drawn == AllRouted(routes, vehicles, routeVehicleId)
  {
    var seen: set<string> := {};
    drawn := [];
    for i := 0 to |routes|
      invariant drawn == AllRouted(routes[..i], vehicles, routeVehicleId)
      invariant seen == Keys(drawn)
    {
      AllRoutedStep(routes, vehicles, routeVehicleId, i);
      var r := routes[i];
      if r.vehicleId != JsString(routeVehicleId) {
        var path := TrimRouteFromVehicle(r.geometry, FindVehicle(vehicles, r.vehicleId));
        var d := Drawn(KeyOf(r), path);
        assert d == DrawnOf(r, vehicles);
        if |d.path| >= 2 && d.key !in seen {
          KeysSnoc(drawn, d);
          seen := seen + {d.key};
          drawn := drawn + [d];
        }
      }
    }
    assert routes[..|routes|] == routes;
  }

  /** One more route extends the result by at most that route's entry. */
  lemma AllRoutedStep(routes: seq<DispatchRoute>, vehicles: seq<VehicleMarker>, routeVehicleId: RouteRef, i: nat)
    requires i < |routes|
    ensures var prev := AllRouted(routes[..i], vehicles, routeVehicleId);
      var d := DrawnOf(routes[i], vehicles);
      AllRouted(routes[..i + 1], vehicles, routeVehicleId)
        == if routes[i].vehicleId == JsString(routeVehicleId) || |d.path| < 2 || d.key in Keys(prev) then prev else prev + [d]
  {
    assert routes[..i + 1][..i] == routes[..i];
  }

  /** The drawn entry `d` comes from a route of another vehicle than the selected one. */
  predicate FromOtherRoute(d: Drawn, routes: seq<DispatchRoute>, vehicles: seq<VehicleMarker>, routeVehicleId: RouteRef)
  {
    exists k :: 0 <= k < |routes| && routes[k].vehicleId != JsString(routeVehicleId) && d == DrawnOf(routes[k], vehicles)
  }

  /** Every drawn route has at least two points and no key is drawn twice. */
  lemma {:induction false} AllRoutedSound(routes: seq<DispatchRoute>, vehicles: seq<VehicleMarker>, routeVehicleId: RouteRef)
    ensures forall i :: 0 <= i < |AllRouted(routes, vehicles, routeVehicleId)| ==>
      |AllRouted(routes, vehicles, routeVehicleId)[i].path| >= 2
    ensures forall i, j :: 0 <= i < j < |AllRouted(routes, vehicles, routeVehicleId)| ==>
      AllRouted(routes, vehicles, routeVehicleId)[i].key != AllRouted(routes, vehicles, routeVehicleId)[j].key
  {
    if routes != [] {
      var init := routes[..|routes| - 1];
      var last := routes[|routes| - 1];
      AllRoutedSound(init, vehicles, routeVehicleId);
      var prev := AllRouted(init, vehicles, routeVehicleId);
      var drawn := AllRouted(routes, vehicles, routeVehicleId);
      var d := DrawnOf(last, vehicles);
      if last.vehicleId == JsString(routeVehicleId) || |d.path| < 2 || d.key in Keys(prev) {
        assert drawn == prev;
      } else {
        assert drawn == prev + [d];
        forall i | 0 <= i < |prev|
          ensures prev[i].key != d.key
        {
          assert prev[i].key in Keys(prev);
        }
      }
    }
  }

  /** Every drawn entry comes from a route of another vehicle than the selected one. */
  lemma {:induction false} AllRoutedFromOther(routes: seq<DispatchRoute>, vehicles: seq<VehicleMarker>, routeVehicleId: RouteRef)
    ensures forall i :: 0 <= i < |AllRouted(routes, vehicles, routeVehicleId)| ==>
      FromOtherRoute(AllRouted(routes, vehicles, routeVehicleId)[i], routes, vehicles, routeVehicleId)
  {
    if routes != [] {
      var init := routes[..|routes| - 1];
      var last := routes[|routes| - 1];
      AllRoutedFromOther(init, vehicles, routeVehicleId);
      var prev := AllRouted(init, vehicles, routeVehicleId);
      var drawn := AllRouted(routes, vehicles, routeVehicleId);
      var d := DrawnOf(last, vehicles);
      forall i | 0 <= i < |prev|
        ensures FromOtherRoute(prev[i], routes, vehicles, routeVehicleId)
      {
        assert FromOtherRoute(prev[i], init, vehicles, routeVehicleId);
        var k :| 0 <= k < |init| && init[k].vehicleId != JsString(routeVehicleId) && prev[i] == DrawnOf(init[k], vehicles);
        assert init[k] == routes[k];
      }
      if last.vehicleId == JsString(routeVehicleId) || |d.path| < 2 || d.key in Keys(prev) {
        assert drawn == prev;
      } else {
        assert drawn == prev + [d];
        assert FromOtherRoute(d, routes, vehicles, routeVehicleId) by {
          assert routes[|routes| - 1] == last;
        }
        forall i | 0 <= i < |drawn|
          ensures FromOtherRoute(drawn[i], routes, vehicles, routeVehicleId)
        {
          if i < |prev| {
            assert drawn[i] == prev[i];
          } else {
            assert drawn[i] == d;
          }
        }
      }
    }
  }

  /** And nothing is lost but what the filters drop: every route of another
      vehicle whose trimmed path keeps two points has its key drawn. */
  lemma {:induction false} AllRoutedComplete(routes: seq<DispatchRoute>, vehicles: seq<VehicleMarker>, routeVehicleId: RouteRef, r: DispatchRoute)
    requires r in routes && r.vehicleId != JsString(routeVehicleId) && |DrawnOf(r, vehicles).path| >= 2
    ensures KeyOf(r) in Keys(AllRouted(routes, vehicles, routeVehicleId))
  {
    var init := routes[..|routes| - 1];
    var prev := AllRouted(init, vehicles, routeVehicleId);
    if r in init {
      AllRoutedComplete(init, vehicles, routeVehicleId, r);
      var k :| 0 <= k < |prev| && prev[k].key == KeyOf(r);
      var drawn := AllRouted(routes, vehicles, routeVehicleId);
      assert drawn == prev || drawn == prev + [DrawnOf(routes[|routes| - 1], vehicles)];
      assert drawn[k].key == KeyOf(r);
    } else {
      assert r == routes[|routes| - 1];
      var drawn := AllRouted(routes, vehicles, routeVehicleId);
      if KeyOf(r) !in Keys(prev) {
        assert drawn[|drawn| - 1].key == KeyOf(r);
      }
    }
  }
}
