/** The passenger "active buses" screen: matching each live bus to its
    route, finding the stop nearest to a bus, and the "time since update"
    label. The great-circle distance is floating-point trigonometry and is
    not modelled: callers pass it in as `dist`, and only the selection
    around it is verified. */
module ActiveBuses {
  import opened Options
  import opened Text

  /** A GeoJSON point: `coordinates` is `[longitude, latitude]`. */
  datatype Coordinates = Coordinates(longitude: real, latitude: real)

  datatype RouteStop = RouteStop(stopId: string, name: string, location: Coordinates, order: int, estimatedTime: int)

  datatype RouteDetails = RouteDetails(
    routeId: string, routeNumber: string, routeName: string,
    startName: string, endName: string, stops: seq<RouteStop>)

  datatype Position = Position(latitude: real, longitude: real, heading: real, speed: real, accuracy: real, timestamp: int)

  datatype BusLocation = BusLocation(
    busId: string, routeId: string, routeName: Option<string>,
    driverId: string, driverName: Option<string>,
    location: Position, isActive: bool, lastUpdate: string)

  datatype BusWithRoute = BusWithRoute(bus: BusLocation, route: Option<RouteDetails>)

  datatype NearestStop = NearestStop(stop: RouteStop, distance: real)

  /** `calculateDistance(lat1, lon1, lat2, lon2)`, supplied by the caller. */
  type DistanceFn = (real, real, real, real) -> real

  /** The distance from the bus to a stop, with the stop's coordinates swapped into latitude-first order. */
  function StopDistance(dist: DistanceFn, bus: BusLocation, stop: RouteStop): real {
    dist(bus.location.latitude, bus.location.longitude, stop.location.latitude, stop.location.longitude)
  }

  // ---------------------------------------------------------------------------
  // findNearestStop

  /** No result for a missing or empty stop list; otherwise a listed stop at
      least as close as every other, the earliest such stop in list order
      (a later stop replaces the current one only when strictly closer). */
  method FindNearestStop(dist: DistanceFn, bus: BusLocation, stops: Option<seq<RouteStop>>) returns (r: Option<NearestStop>)
    ensures r.None? <==> stops.None? || |stops.value| == 0
    ensures r.Some? ==> r.value.stop in stops.value && r.value.distance == StopDistance(dist, bus, r.value.stop)
    ensures r.Some? ==> forall i :: 0 <= i < |stops.value| ==> r.value.distance <= StopDistance(dist, bus, stops.value[i])
    ensures r.Some? ==> exists k :: 0 <= k < |stops.value| && stops.value[k] == r.value.stop
                          && forall j :: 0 <= j < k ==> StopDistance(dist, bus, stops.value[j]) > r.value.distance
  {
    if stops.None? || |stops.value| == 0 {
      return None;
    }
    var s := stops.value;
    var nearest := s[0];
    var minDistance := StopDistance(dist, bus, s[0]);
    ghost var k := 0;
    for i := 0 to |s|
      invariant 0 <= k < |s| && k <= i
      invariant s[k] == nearest && minDistance == StopDistance(dist, bus, nearest)
      invariant forall j :: 0 <= j < i ==> minDistance <= StopDistance(dist, bus, s[j])
      invariant forall j :: 0 <= j < k ==> StopDistance(dist, bus, s[j]) > minDistance
    {
      var distance := StopDistance(dist, bus, s[i]);
      if distance < minDistance {
        minDistance := distance;
        nearest := s[i];
        k := i;
      }
    }
    return Some(NearestStop(nearest, minDistance));
  }

  // ---------------------------------------------------------------------------
  // Route maps: `routesMap.set(route.routeNumber, route)` and
  // `routesByIdMap.set(route.routeId, route)` for each route in turn

  /** The map built by setting `key(route) -> route` for each route in order. */
  function IndexBy(routes: seq<RouteDetails>, key: RouteDetails -> string): map<string, RouteDetails>
    decreases |routes|
  {
    if routes == [] then map[]
    else IndexBy(routes[..|routes| - 1], key)[key(routes[|routes| - 1]) := routes[|routes| - 1]]
  }

  function RouteNumberOf(r: RouteDetails): string { r.routeNumber }
  function RouteIdOf(r: RouteDetails): string { r.routeId }

  /** A key is present exactly when some route has it, and it maps to the
      LAST route with that key: later routes overwrite earlier ones. */
  lemma {:induction false} IndexByLastWins(routes: seq<RouteDetails>, key: RouteDetails -> string, x: string)
    ensures x in IndexBy(routes, key) <==> exists i :: 0 <= i < |routes| && key(routes[i]) == x
    ensures x in IndexBy(routes, key) ==>
      exists j :: 0 <= j < |routes| && key(routes[j]) == x && IndexBy(routes, key)[x] == routes[j]
        && forall i :: j < i < |routes| ==> key(routes[i]) != x
    decreases |routes|
  {
    if routes != [] {
      var init := routes[..|routes| - 1];
      var last := routes[|routes| - 1];
      IndexByLastWins(init, key, x);
      if key(last) == x {
        assert IndexBy(routes, key)[x] == routes[|routes| - 1];
      } else {
        if exists i :: 0 <= i < |routes| && key(routes[i]) == x {
          var i :| 0 <= i < |routes| && key(routes[i]) == x;
          assert init[i] == routes[i];
        }
        if x in IndexBy(routes, key) {
          var j :| 0 <= j < |init| && key(init[j]) == x && IndexBy(init, key)[x] == init[j]
            && forall i :: j < i < |init| ==> key(init[i]) != x;
          assert routes[j] == init[j];
          forall i | j < i < |routes| ensures key(routes[i]) != x {
            if i < |routes| - 1 { assert routes[i] == init[i]; }
          }
        }
      }
    }
  }

  /** Every value of an index map is one of the routes. */
  lemma IndexByValues(routes: seq<RouteDetails>, key: RouteDetails -> string, x: string)
    requires x in IndexBy(routes, key)
    ensures IndexBy(routes, key)[x] in routes && key(IndexBy(routes, key)[x]) == x
  {
    IndexByLastWins(routes, key, x);
  }

  /** The `forEach` over the fetched routes; a null result leaves both maps empty. */
  method BuildRouteMaps(routesData: Option<seq<RouteDetails>>)
    returns (byNumber: map<string, RouteDetails>, byId: map<string, RouteDetails>)
    ensures routesData.None? ==> byNumber == map[] && byId == map[]
    ensures routesData.Some? ==>
      byNumber == IndexBy(routesData.value, RouteNumberOf) && byId == IndexBy(routesData.value, RouteIdOf)
  {
    byNumber, byId := map[], map[];
    if routesData.Some? {
      var routes := routesData.value;
      for i := 0 to |routes|
        invariant byNumber == IndexBy(routes[..i], RouteNumberOf)
        invariant byId == IndexBy(routes[..i], RouteIdOf)
      {
        assert routes[..i + 1][..i] == routes[..i];
        byNumber := byNumber[routes[i].routeNumber := routes[i]];
        byId := byId[routes[i].routeId := routes[i]];
      }
      assert routes[..|routes|] == routes;
    }
  }

  // ---------------------------------------------------------------------------
  // The bus -> route matching cascade

  /** `bus.routeName.match(/^(\d+)/)?.[1]`, for a truthy route name. */
  function RouteNameNumber(bus: BusLocation): Option<string> {
    if bus.routeName.Some? && bus.routeName.value != "" && LeadingDigits(bus.routeName.value) != ""
    then Some(LeadingDigits(bus.routeName.value))
    else None
  }

  /** The route for a bus: its routeId in the by-id map, else the leading
      number of its route name in the by-number map, else its routeId
      read as a route number; an empty routeId is skipped. A match is
      always one of the indexed routes, and there is none exactly when
      none of the three keys is indexed. */
  function MatchRoute(bus: BusLocation, byId: map<string, RouteDetails>, byNumber: map<string, RouteDetails>): (r: Option<RouteDetails>)
    ensures r.Some? ==> r.value in byId.Values || r.value in byNumber.Values
    ensures r.None? <==>
      && (bus.routeId == "" || (bus.routeId !in byId && bus.routeId !in byNumber))
      && (RouteNameNumber(bus).None? || RouteNameNumber(bus).value !in byNumber)
  {
    if bus.routeId != "" && bus.routeId in byId then Some(byId[bus.routeId])
    else if RouteNameNumber(bus).Some? && RouteNameNumber(bus).value in byNumber then Some(byNumber[RouteNameNumber(bus).value])
    else if bus.routeId != "" && bus.routeId in byNumber then Some(byNumber[bus.routeId])
    else None
  }

  /** Stated against the route list itself: a matched route is one of the
      fetched routes and carries the bus's routeId, or a route number equal
      to the route name's leading digits or to the routeId; no route is
      matched exactly when no fetched route fits any of the three. */
  lemma MatchRouteAgainstList(routes: seq<RouteDetails>, bus: BusLocation)
    ensures var m := MatchRoute(bus, IndexBy(routes, RouteIdOf), IndexBy(routes, RouteNumberOf));
      && (m.Some? ==>
            && m.value in routes
            && ((bus.routeId != "" && m.value.routeId == bus.routeId)
                || (RouteNameNumber(bus).Some? && m.value.routeNumber == RouteNameNumber(bus).value)
                || (bus.routeId != "" && m.value.routeNumber == bus.routeId)))
      && (m.None? <==> forall i :: 0 <= i < |routes| ==>
            && (bus.routeId == "" || routes[i].routeId != bus.routeId)
            && (RouteNameNumber(bus).None? || routes[i].routeNumber != RouteNameNumber(bus).value)
            && (bus.routeId == "" || routes[i].routeNumber != bus.routeId))
  {
    IndexByLastWins(routes, RouteIdOf, bus.routeId);
    IndexByLastWins(routes, RouteNumberOf, bus.routeId);
    if RouteNameNumber(bus).Some? {
      IndexByLastWins(routes, RouteNumberOf, RouteNameNumber(bus).value);
    }
  }

  /** A route found by id wins over every other candidate. */
  lemma MatchRoutePrefersId(routes: seq<RouteDetails>, bus: BusLocation, j: nat)
    requires j < |routes| && bus.routeId != "" && routes[j].routeId == bus.routeId
    ensures var m := MatchRoute(bus, IndexBy(routes, RouteIdOf), IndexBy(routes, RouteNumberOf));
      m.Some? && m.value.routeId == bus.routeId
  {
    IndexByLastWins(routes, RouteIdOf, bus.routeId);
  }

  /** Without a route of the bus's id, the route name's leading number wins
      over the routeId read as a route number. */
  lemma MatchRoutePrefersNameDigits(routes: seq<RouteDetails>, bus: BusLocation, j: nat)
    requires bus.routeId == "" || forall i :: 0 <= i < |routes| ==> routes[i].routeId != bus.routeId
    requires RouteNameNumber(bus).Some? && j < |routes| && routes[j].routeNumber == RouteNameNumber(bus).value
    ensures var m := MatchRoute(bus, IndexBy(routes, RouteIdOf), IndexBy(routes, RouteNumberOf));
      m.Some? && m.value.routeNumber == RouteNameNumber(bus).value
  {
    IndexByLastWins(routes, RouteIdOf, bus.routeId);
    IndexByLastWins(routes, RouteNumberOf, RouteNameNumber(bus).value);
  }

  /** `buses.map(...)`: one entry per bus, in order, each with its matched route. */
  method MatchBuses(buses: seq<BusLocation>, byId: map<string, RouteDetails>, byNumber: map<string, RouteDetails>)
    returns (r: seq<BusWithRoute>)
    ensures |r| == |buses|
    ensures forall i :: 0 <= i < |r| ==> r[i].bus == buses[i] && r[i].route == MatchRoute(buses[i], byId, byNumber)
  {
    r := [];
    for i := 0 to |buses|
      invariant |r| == i
      invariant forall j :: 0 <= j < i ==> r[j].bus == buses[j] && r[j].route == MatchRoute(buses[j], byId, byNumber)
    {
      var bus := buses[i];
      var matchedRoute: Option<RouteDetails> := None;
      if bus.routeId != "" {
        matchedRoute := if bus.routeId in byId then Some(byId[bus.routeId]) else None;
      }
      if matchedRoute.None? && bus.routeName.Some? && bus.routeName.value != "" {
        var routeNumberMatch := LeadingDigits(bus.routeName.value);
        if routeNumberMatch != "" {
          matchedRoute := if routeNumberMatch in byNumber then Some(byNumber[routeNumberMatch]) else None;
        }
      }
      if matchedRoute.None? && bus.routeId != "" {
        matchedRoute := if bus.routeId in byNumber then Some(byNumber[bus.routeId]) else None;
      }
      r := r + [BusWithRoute(bus, matchedRoute)];
    }
  }

  // ---------------------------------------------------------------------------
  // getTimeSinceUpdate

  /** A label's number and unit: 's', 'm' or 'h'. */
  datatype Ago = Ago(amount: int, unit: char)

  /** `Math.floor((now - updateTime) / 1000)`: Dafny's `/` by a positive divisor rounds down, like `Math.floor`. */
  function ElapsedSeconds(now: int, updateTime: int): int {
    (now - updateTime) / 1000
  }

  function AgoOf(now: int, updateTime: int): Ago {
    var s := ElapsedSeconds(now, updateTime);
    if s < 60 then Ago(s, 's')
    else if s < 3600 then Ago(s / 60, 'm')
    else Ago(s / 3600, 'h')
  }

  /** `getTimeSinceUpdate`, with the parsed update time in milliseconds:
      a number, a unit letter and " ago". The number is decimal digits that
      read back as the amount once the clock is past the update time, and
      carries a minus sign when it is not. */
  function TimeSinceUpdate(now: int, updateTime: int): (r: string)
    ensures |r| >= 6 && r[|r| - 4..] == " ago" && r[|r| - 5] in "smh"
    ensures r[|r| - 5] == AgoOf(now, updateTime).unit
    ensures now >= updateTime ==> var n := r[..|r| - 5];
      (forall i :: 0 <= i < |n| ==> IsDigit(n[i])) && DecimalValue(n) == AgoOf(now, updateTime).amount
    ensures now < updateTime ==> r[0] == '-'
  {
    var a := AgoOf(now, updateTime);
    var text := IntToString(a.amount) + [a.unit] + " ago";
    IntToStringRoundTrip(a.amount);
    assert text[..|text| - 5] == IntToString(a.amount);
    text
  }

  /** The label picks the largest unit that fits and rounds down: under a
      minute whole seconds, under an hour whole minutes (1 to 59), else
      whole hours; and its number reads back as that amount. */
  lemma TimeSinceUpdateBuckets(now: int, updateTime: int)
    ensures var s := ElapsedSeconds(now, updateTime);
      && s * 1000 <= now - updateTime < (s + 1) * 1000
      && (s < 60 ==> AgoOf(now, updateTime) == Ago(s, 's'))
      && (60 <= s < 3600 ==> var m := AgoOf(now, updateTime).amount;
            AgoOf(now, updateTime).unit == 'm' && 1 <= m <= 59 && m * 60 <= s < (m + 1) * 60)
      && (3600 <= s ==> var h := AgoOf(now, updateTime).amount;
            AgoOf(now, updateTime).unit == 'h' && 1 <= h && h * 3600 <= s < (h + 1) * 3600)
    ensures var a := AgoOf(now, updateTime); var text := TimeSinceUpdate(now, updateTime);
      && |text| == |IntToString(a.amount)| + 5
      && text[..|IntToString(a.amount)|] == IntToString(a.amount)
      && text[|IntToString(a.amount)|] == a.unit
      && (a.amount >= 0 ==> DecimalValue(text[..|IntToString(a.amount)|]) == a.amount)
  {
    var s := ElapsedSeconds(now, updateTime);
    var a := AgoOf(now, updateTime);
    IntToStringRoundTrip(a.amount);
  }
}
