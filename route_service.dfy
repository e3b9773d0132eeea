/** The road-route client (`RouteService`): it asks an OSRM server for a driving
    route between two points, turns the GeoJSON `[lng, lat]` coordinates into
    `[lat, lng]` pairs, and falls back to the straight two-point segment on any
    failure. The HTTP exchange itself is a function parameter. */
module RouteService {
  import opened Common
  import opened Geo

  /** One element of the OSRM `routes` array, as far as the client reads it:
      `distance`, `duration` and `geometry.coordinates` (absent geometry or
      absent coordinates both read as an empty list). */
  datatype OsrmRoute = OsrmRoute(distance: Option<real>, duration: Option<real>, coordinates: Option<seq<seq<real>>>)

  /** What the GET request produced: any transport error, HTTP error status or
      undecodable body is `Failed`; otherwise the decoded `routes` array. */
  datatype OsrmResponse = Failed | Answered(routes: seq<OsrmRoute>)

  /** The route dictionary the backend passes around. */
  datatype Route = Route(distanceM: Option<real>, durationS: Option<real>, geometry: seq<LatLng>, source: string)

  /** The service: its base URL, the HTTP GET it performs, and how Python renders a float in the URL. */
  datatype Service = Service(osrmBaseUrl: string, fetch: string -> OsrmResponse, showFloat: real -> string)

  /** `RouteService.__init__`: trailing slashes of the configured base URL are removed. */
  function NewService(baseUrl: string, fetch: string -> OsrmResponse, showFloat: real -> string): (s: Service)
    ensures s.osrmBaseUrl == RStripChars(baseUrl, {'/'})
    ensures |s.osrmBaseUrl| == 0 || s.osrmBaseUrl[|s.osrmBaseUrl| - 1] != '/'
    ensures |s.osrmBaseUrl| <= |baseUrl| && baseUrl == s.osrmBaseUrl + baseUrl[|s.osrmBaseUrl|..]
    ensures forall i :: |s.osrmBaseUrl| <= i < |baseUrl| ==> baseUrl[i] == '/'
  {
    RStripCharsSpec(baseUrl, {'/'});
    Service(RStripChars(baseUrl, {'/'}), fetch, showFloat)
  }

  /** `lng,lat` of one endpoint, in the order OSRM expects: the longitude,
      a comma, the latitude. */
  function Endpoint(svc: Service, p: LatLng): (e: string)
    ensures var lng := svc.showFloat(p.lng);
      && |e| == |lng| + 1 + |svc.showFloat(p.lat)|
      && e[..|lng|] == lng && e[|lng|] == ',' && e[|lng| + 1..] == svc.showFloat(p.lat)
  {
    svc.showFloat(p.lng) + "," + svc.showFloat(p.lat)
  }

  /** The request URL of `get_route`: the driving-route path under the base
      URL, the two endpoints separated by ";", and the query asking for the
      full GeoJSON geometry. */
  function RouteUrl(svc: Service, start: LatLng, end: LatLng): (url: string)
    ensures var head := svc.osrmBaseUrl + "/route/v1/driving/";
      var query := "?overview=full&geometries=geojson";
      && StartsWith(url, head) && |url| >= |head| + |query| && url[|url| - |query|..] == query
      && url[|head|..|url| - |query|] == Endpoint(svc, start) + ";" + Endpoint(svc, end)
  {
    svc.osrmBaseUrl + "/route/v1/driving/" + Endpoint(svc, start) + ";" + Endpoint(svc, end)
      + "?overview=full&geometries=geojson"
  }

  /** `_fallback_route`: the straight segment from start to end, with no distance or duration. */
  function FallbackRoute(start: LatLng, end: LatLng): (r: Route)
    ensures r.geometry == [start, end]
    ensures r.distanceM.None? && r.durationS.None?
    ensures r.source == "fallback"
  {
    Route(None, None, [start, end], "fallback")
  }

  /** `[[lat, lng] for lng, lat in coordinates]`: `None` when some element does
      not unpack into exactly two values (the comprehension raises). */
  function SwapPairs(coords: seq<seq<real>>): (r: Option<seq<LatLng>>)
    ensures r.Some? <==> forall i :: 0 <= i < |coords| ==> |coords[i]| == 2
    ensures r.Some? ==> |r.value| == |coords|
    ensures r.Some? ==> forall i :: 0 <= i < |coords| ==> r.value[i] == LatLng(coords[i][1], coords[i][0])
  {
    if coords == [] then Some([])
    else if |coords[0]| != 2 then None
    else
      match SwapPairs(coords[1..])
      case None => None
      case Some(rest) => Some([LatLng(coords[0][1], coords[0][0])] + rest)
  }

  /** `get_route`: one request; the OSRM route exactly when the request
      succeeds with a non-empty `routes` array whose first route's coordinates
      are all pairs; the fallback otherwise. */
  function GetRoute(svc: Service, start: LatLng, end: LatLng): (r: Route)
    ensures r.source == "osrm" || r == FallbackRoute(start, end)
    ensures svc.fetch(RouteUrl(svc, start, end)).Failed? ==> r == FallbackRoute(start, end)
    ensures svc.fetch(RouteUrl(svc, start, end)) == Answered([]) ==> r == FallbackRoute(start, end)
    ensures var resp := svc.fetch(RouteUrl(svc, start, end));
      resp.Answered? && |resp.routes| > 0
      && (forall i :: 0 <= i < |OrElseSeq(resp.routes[0].coordinates)| ==> |OrElseSeq(resp.routes[0].coordinates)[i]| == 2)
      ==> r.source == "osrm"
    ensures r.source == "osrm" ==>
      var resp := svc.fetch(RouteUrl(svc, start, end));
      resp.Answered? && |resp.routes| > 0
      && var coords := OrElseSeq(resp.routes[0].coordinates);
      r.distanceM == resp.routes[0].distance && r.durationS == resp.routes[0].duration
      && |r.geometry| == |coords|
      && forall i :: 0 <= i < |coords| ==> |coords[i]| == 2 && r.geometry[i] == LatLng(coords[i][1], coords[i][0])
  {
    var resp := svc.fetch(RouteUrl(svc, start, end));
    if resp.Failed? || |resp.routes| == 0 then FallbackRoute(start, end)
    else
      var route := resp.routes[0];
      match SwapPairs(OrElseSeq(route.coordinates))
      case None => FallbackRoute(start, end)
      case Some(geometry) => Route(route.distance, route.duration, geometry, "osrm")
  }

  /** `.get("coordinates", [])`: an absent list reads as empty. */
  function OrElseSeq<T>(o: Option<seq<T>>): seq<T>
  {
    if o.Some? then o.value else []
  }
}
