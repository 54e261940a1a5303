/**
 * `RoutingService` (the `origin/develop` side of the file): finds the stops nearest the two
 * coordinates and the routes joining them. The nearest-stop search is floating-point geometry and
 * not part of this model; its two answers are inputs.
 */
module RoutingService {
  import opened Wrappers
  import opened Strings
  import opened EtaProvider
  import opened RoutingDto
  import opened RouteFilter
  import opened RoutingAlgorithm

  const NO_DEPARTURE_STOP_MSG := "출발지 근처에 정류장이 없습니다."
  const NO_ARRIVAL_STOP_MSG := "도착지 근처에 정류장이 없습니다."
  const NO_DIRECT_ROUTE_MSG := "해당 정류장을 연결하는 직행 노선이 없습니다."
  const ROUTES_AVAILABLE_SUFFIX := "개의 노선을 이용할 수 있습니다."

  /** The response `findRoute` assembles. */
  function RouteFound(db: Db, departureStop: Option<StopCandidate>, arrivalStop: Option<StopCandidate>): RoutingResponse {
    if departureStop.None? then EMPTY_RESPONSE.(message := Some(NO_DEPARTURE_STOP_MSG), routes := Some([]))
    else if arrivalStop.None? then EMPTY_RESPONSE.(message := Some(NO_ARRIVAL_STOP_MSG), routes := Some([]))
    else
      var routes := FilteredRoutes(db, departureStop.value.stationId, arrivalStop.value.stationId);
      RoutingResponse(departureStop, arrivalStop, Some(routes),
                      departureStop.value.walkTimeFromOrigin + arrivalStop.value.walkTimeFromOrigin,
                      Some(if routes == [] then NO_DIRECT_ROUTE_MSG
                           else DecimalString(|routes|) + ROUTES_AVAILABLE_SUFFIX))
  }

  /** `findRoute`: fills a fresh response field by field. */
  method FindRoute(db: Db, departureStop: Option<StopCandidate>, arrivalStop: Option<StopCandidate>)
    returns (response: RoutingResponse)
    ensures response == RouteFound(db, departureStop, arrivalStop)
  {
    response := EMPTY_RESPONSE;
    if departureStop.None? {
      response := response.(message := Some(NO_DEPARTURE_STOP_MSG));
      response := response.(routes := Some([]));
      return;
    }
    if arrivalStop.None? {
      response := response.(message := Some(NO_ARRIVAL_STOP_MSG));
      response := response.(routes := Some([]));
      return;
    }
    var dep := departureStop.value;
    var arr := arrivalStop.value;
    var routes := FilterRoutes(db, dep.stationId, arr.stationId);
    response := response.(departureStop := Some(dep));
    response := response.(arrivalStop := Some(arr));
    response := response.(routes := Some(routes));
    response := response.(totalWalkTime := dep.walkTimeFromOrigin + arr.walkTimeFromOrigin);
    if |routes| == 0 {
      response := response.(message := Some(NO_DIRECT_ROUTE_MSG));
    } else {
      response := response.(message := Some(DecimalString(|routes|) + ROUTES_AVAILABLE_SUFFIX));
    }
  }

  /** `findRouteByStationIds`: exactly the route filter's answer. */
  method FindRouteByStationIds(db: Db, departureStationId: string, arrivalStationId: string)
    returns (routes: seq<RouteCandidate>)
    ensures routes == FilteredRoutes(db, departureStationId, arrivalStationId)
  {
    routes := FilterRoutes(db, departureStationId, arrivalStationId);
  }

  /** A missing stop leaves both stops unset and the route list empty, with a message naming the
      side that has no stop; with both stops the routes are the filter's and the walk is both walks. */
  lemma RouteFoundSpec(db: Db, departureStop: Option<StopCandidate>, arrivalStop: Option<StopCandidate>)
    ensures var r := RouteFound(db, departureStop, arrivalStop);
      (departureStop.None? ==>
         r.routes == Some([]) && r.departureStop.None? && r.arrivalStop.None? && r.message == Some(NO_DEPARTURE_STOP_MSG)) &&
      (departureStop.Some? && arrivalStop.None? ==>
         r.routes == Some([]) && r.departureStop.None? && r.arrivalStop.None? && r.message == Some(NO_ARRIVAL_STOP_MSG)) &&
      (departureStop.Some? && arrivalStop.Some? ==>
         r.departureStop == departureStop && r.arrivalStop == arrivalStop &&
         r.routes == Some(FilteredRoutes(db, departureStop.value.stationId, arrivalStop.value.stationId)) &&
         r.totalWalkTime == departureStop.value.walkTimeFromOrigin + arrivalStop.value.walkTimeFromOrigin)
  {
  }

  /** The message of a successful search reads back as the number of routes found; it is the
      "no direct route" text exactly when none was found. */
  lemma RouteFoundMessage(db: Db, departureStop: StopCandidate, arrivalStop: StopCandidate)
    ensures var r := RouteFound(db, Some(departureStop), Some(arrivalStop));
      var n := |r.routes.value|;
      var m := r.message.value;
      (n == 0 <==> m == NO_DIRECT_ROUTE_MSG) &&
      (n > 0 ==> exists k :: 0 < k <= |m| && AllDigits(m[..k]) && DigitsValue(m[..k]) == n && m[k..] == ROUTES_AVAILABLE_SUFFIX)
  {
    var r := RouteFound(db, Some(departureStop), Some(arrivalStop));
    var n := |r.routes.value|;
    var m := r.message.value;
    if n > 0 {
      var digits := DecimalString(n);
      DecimalStringRoundTrip(n);
      assert m == digits + ROUTES_AVAILABLE_SUFFIX;
      assert m[..|digits|] == digits && m[|digits|..] == ROUTES_AVAILABLE_SUFFIX;
      assert m != NO_DIRECT_ROUTE_MSG by {
        assert m[|m| - 1] == '.';
        assert |m| != |NO_DIRECT_ROUTE_MSG| || m[|digits|] != NO_DIRECT_ROUTE_MSG[|digits|];
      }
    }
  }

  /** Across `findRoute` and `computeBestRoute`: when the route table keeps one row per (route,
      station) pair, every candidate the algorithm scores rides at least one stop, so its ride takes
      two minutes per stop it actually travels. */
  lemma PipelineRideMinutes(db: Db, departureStop: StopCandidate, arrivalStop: StopCandidate)
    requires KeyUnique(db)
    ensures var routes := RouteFound(db, Some(departureStop), Some(arrivalStop)).routes.value;
      forall c :: c in routes ==> c.stationCount >= 1 && EstimateBusTravelTime(c) == AVG_MIN_PER_STOP * c.stationCount
  {
    StationCountPositive(db, departureStop.stationId, arrivalStop.stationId);
  }

  /** Across `findRoute` and `computeBestRoute`: a missing stop on either side makes the journey a
      single zero-minute walk. */
  lemma PipelineWithoutStop(db: Db, request: RouteSearchRequest, departureStop: Option<StopCandidate>,
                            arrivalStop: Option<StopCandidate>, stationArrivals: seq<ArrivalInfo>)
    requires departureStop.None? || arrivalStop.None?
    ensures var r := ComputeBestRoute(request, RouteFound(db, departureStop, arrivalStop), stationArrivals);
      r.Ok? && r.value.totalTime == 0 && |r.value.steps| == 1 && r.value.steps[0].duration == 0
  {
    NoStopSpec(request, RouteFound(db, departureStop, arrivalStop), stationArrivals);
  }
}
