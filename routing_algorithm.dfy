/**
 * `RoutingAlgorithm` (service version): scores every candidate route by walk, wait and ride
 * minutes, picks the best under a lexicographic order and lays the journey out as steps.
 * `routingService.findRoute` is replaced by its result, and the ETA provider by the arrival list it
 * would load for the departure stop.
 */
module RoutingAlgorithm {
  import opened Wrappers
  import opened EtaProvider
  import opened RoutingDto

  /** Minutes of riding assumed per stop. */
  const AVG_MIN_PER_STOP := 2
  /** Wait assumed for a route without any arrival estimate. */
  const NO_ETA_PENALTY_MIN := 30

  const ORIGIN_LABEL := "출발지"
  const DESTINATION_LABEL := "목적지"

  datatype RouteSearchRequest = RouteSearchRequest(originLat: real, originLng: real, destLat: real, destLng: real)

  /** `StepResponse`; `line` and `waitTime` are set on the bus step only. */
  datatype StepResponse = StepResponse(kind: string, duration: int, from: string, to: string,
                                       line: Option<string>, waitTime: Option<int>)

  datatype OriginMarker = OriginMarker(lat: real, lng: real, labelText: string)

  /** `RouteResponse` without its clock-dependent `eta` text. */
  datatype RouteResponse = RouteResponse(totalTime: int, steps: seq<StepResponse>, originMarker: OriginMarker)

  /** `BestCandidate`: one route with its scored minutes. */
  datatype BestCandidate = BestCandidate(routeCandidate: RouteCandidate, walk1: int, walk2: int, waitTime: int,
                                         busTravel: int, totalTime: int)

  function SafeNonNegative(v: int): (r: int)
    ensures r >= 0 && r >= v && (v >= 0 ==> r == v)
  {
    if v < 0 then 0 else v
  }

  /** The least non-negative value of `ms`, if there is one. */
  function LeastNonNegative(ms: seq<int>): (r: Option<int>)
    ensures r.None? <==> forall i :: 0 <= i < |ms| ==> ms[i] < 0
    ensures r.Some? ==> r.value >= 0 && r.value in ms && forall i :: 0 <= i < |ms| && ms[i] >= 0 ==> r.value <= ms[i]
  {
    if ms == [] then None
    else
      var rest := LeastNonNegative(ms[1..]);
      assert forall i :: 1 <= i < |ms| ==> ms[i] == ms[1..][i - 1];
      if ms[0] < 0 then rest
      else if rest.Some? && rest.value < ms[0] then rest
      else Some(ms[0])
  }

  function Minutes(infos: seq<ArrivalInfo>): (ms: seq<int>)
    ensures |ms| == |infos| && forall i :: 0 <= i < |ms| ==> ms[i] == infos[i].arrivalMinutes
  {
    seq(|infos|, i requires 0 <= i < |infos| => infos[i].arrivalMinutes)
  }

  /** `resolveWaitTime`: the candidate's own arrivals when it has any, otherwise the provider's
      first arrival for the route; a provider exception escapes. */
  function ResolveWaitTime(rc: RouteCandidate, stationArrivals: seq<ArrivalInfo>): (r: Result<int>)
    ensures r.Ok? ==> r.value >= 0
  {
    if rc.arrivals.Some? && rc.arrivals.value != [] then
      Ok(LeastNonNegative(Minutes(rc.arrivals.value)).GetOr(NO_ETA_PENALTY_MIN))
    else
      match GetArrivalInfoForRoute(stationArrivals, rc.routeId)
      case Err(e) => Err(e)
      case Ok(None) => Ok(NO_ETA_PENALTY_MIN)
      case Ok(Some(info)) => Ok(SafeNonNegative(info.arrivalMinutes))
  }

  /** The wait is the soonest non-negative estimate of the candidate's own arrivals (30 when all
      are negative); without own arrivals it is the provider's estimate clamped at 0, or 30 when the
      provider knows no bus of the route. */
  lemma ResolveWaitTimeSpec(rc: RouteCandidate, stationArrivals: seq<ArrivalInfo>)
    ensures var r := ResolveWaitTime(rc, stationArrivals);
      if rc.arrivals.Some? && rc.arrivals.value != [] then
        var own := rc.arrivals.value;
        r.Ok? &&
        ((r.value == NO_ETA_PENALTY_MIN && forall i :: 0 <= i < |own| ==> own[i].arrivalMinutes < 0) ||
         (exists i :: 0 <= i < |own| && own[i].arrivalMinutes == r.value &&
                      forall j :: 0 <= j < |own| && own[j].arrivalMinutes >= 0 ==> r.value <= own[j].arrivalMinutes))
      else
        var p := GetArrivalInfoForRoute(stationArrivals, rc.routeId);
        (r.Err? <==> p.Err?) &&
        (p == Ok(None) ==> r == Ok(NO_ETA_PENALTY_MIN)) &&
        (p.Ok? && p.value.Some? ==> r == Ok(if p.value.value.arrivalMinutes < 0 then 0 else p.value.value.arrivalMinutes))
  {
    if rc.arrivals.Some? && rc.arrivals.value != [] {
      var own := rc.arrivals.value;
      var ms := Minutes(own);
      var least := LeastNonNegative(ms);
      if least.Some? {
        var i :| 0 <= i < |ms| && ms[i] == least.value;
        assert own[i].arrivalMinutes == least.value;
      }
    }
  }

  /** `estimateBusTravelTime`: two minutes per stop, the stop count falling back to the order
      difference and then to 1. */
  function EstimateBusTravelTime(rc: RouteCandidate): (t: int)
    ensures t >= AVG_MIN_PER_STOP && t % 2 == 0
    ensures rc.stationCount > 0 ==> t == AVG_MIN_PER_STOP * rc.stationCount
    ensures rc.stationCount <= 0 && rc.arrivalStationOrder - rc.departureStationOrder > 1 ==>
      t == AVG_MIN_PER_STOP * (rc.arrivalStationOrder - rc.departureStationOrder)
    ensures rc.stationCount <= 0 && rc.arrivalStationOrder - rc.departureStationOrder <= 1 ==> t == AVG_MIN_PER_STOP
  {
    var stationCount :=
      if rc.stationCount > 0 then rc.stationCount
      else if rc.arrivalStationOrder - rc.departureStationOrder > 1 then rc.arrivalStationOrder - rc.departureStationOrder
      else 1;
    stationCount * AVG_MIN_PER_STOP
  }

  /** `evaluate`: the candidate's walk, wait and ride minutes and their sum. */
  function Evaluate(rc: RouteCandidate, departureStop: StopCandidate, arrivalStop: StopCandidate,
                    stationArrivals: seq<ArrivalInfo>): (r: Result<BestCandidate>)
    ensures r.Err? <==> ResolveWaitTime(rc, stationArrivals).Err?
    ensures r.Ok? ==>
      var b := r.value;
      b.routeCandidate == rc && b.walk1 >= 0 && b.walk2 >= 0 && b.waitTime >= 0 && b.busTravel >= 2 &&
      b.totalTime == b.walk1 + b.waitTime + b.busTravel + b.walk2 &&
      b.walk1 == SafeNonNegative(departureStop.walkTimeFromOrigin) && b.walk2 == SafeNonNegative(arrivalStop.walkTimeFromOrigin) &&
      b.waitTime == ResolveWaitTime(rc, stationArrivals).value && b.busTravel == EstimateBusTravelTime(rc)
  {
    var walk1 := SafeNonNegative(departureStop.walkTimeFromOrigin);
    var walk2 := SafeNonNegative(arrivalStop.walkTimeFromOrigin);
    match ResolveWaitTime(rc, stationArrivals)
    case Err(e) => Err(e)
    case Ok(waitTime) =>
      var busTravel := EstimateBusTravelTime(rc);
      Ok(BestCandidate(rc, walk1, walk2, waitTime, busTravel, walk1 + waitTime + busTravel + walk2))
  }

  /** `bestComparator` says `a` comes strictly before `b`: less total time, then less waiting, then
      fewer stops (a negative stop count counting as 0). */
  predicate Better(a: BestCandidate, b: BestCandidate) {
    a.totalTime < b.totalTime ||
    (a.totalTime == b.totalTime &&
     (a.waitTime < b.waitTime ||
      (a.waitTime == b.waitTime &&
       SafeNonNegative(a.routeCandidate.stationCount) < SafeNonNegative(b.routeCandidate.stationCount))))
  }

  /** The comparator is a strict weak order: irreflexive, transitive and with transitive ties. */
  lemma BetterIsStrictOrder(a: BestCandidate, b: BestCandidate, c: BestCandidate)
    ensures !Better(a, a)
    ensures Better(a, b) && Better(b, c) ==> Better(a, c)
    ensures !Better(a, b) && !Better(b, c) ==> !Better(a, c)
  {
  }

  /** The index `Stream.min(bestComparator())` settles on: no candidate is better, and every
      earlier candidate is worse (a tie keeps the earlier one). */
  function BestIndex(cs: seq<BestCandidate>): (i: nat)
    requires cs != []
    ensures i < |cs|
    ensures forall j :: 0 <= j < |cs| ==> !Better(cs[j], cs[i])
    ensures forall j :: 0 <= j < i ==> Better(cs[i], cs[j])
  {
    if |cs| == 1 then 0
    else
      var init := cs[..|cs| - 1];
      var m := BestIndex(init);
      assert forall j :: 0 <= j < |init| ==> init[j] == cs[j];
      var last := cs[|cs| - 1];
      if !Better(last, cs[m]) then m
      else
        assert forall j :: 0 <= j < |cs| - 1 ==> Better(last, cs[j]) by {
          forall j | 0 <= j < |cs| - 1
            ensures Better(last, cs[j])
          {
            BetterIsStrictOrder(last, cs[m], cs[j]);
            BetterIsStrictOrder(cs[j], cs[m], last);
          }
        }
        |cs| - 1
  }

  /** All candidates evaluated in list order; the first exception escapes. */
  function EvaluateAll(routes: seq<RouteCandidate>, departureStop: StopCandidate, arrivalStop: StopCandidate,
                       stationArrivals: seq<ArrivalInfo>): (r: Result<seq<BestCandidate>>)
    ensures r.Err? <==> exists i :: 0 <= i < |routes| && Evaluate(routes[i], departureStop, arrivalStop, stationArrivals).Err?
    ensures r.Err? ==> exists i :: 0 <= i < |routes| && Evaluate(routes[i], departureStop, arrivalStop, stationArrivals) == Err(r.error)
    ensures r.Ok? ==> |r.value| == |routes|
    ensures r.Ok? ==>
      forall i :: 0 <= i < |routes| ==> Evaluate(routes[i], departureStop, arrivalStop, stationArrivals) == Ok(r.value[i])
  {
    if routes == [] then Ok([])
    else
      match Evaluate(routes[0], departureStop, arrivalStop, stationArrivals)
      case Err(e) => Err(e)
      case Ok(b) =>
        var rest := EvaluateAll(routes[1..], departureStop, arrivalStop, stationArrivals);
        assert forall i :: 1 <= i < |routes| ==> routes[i] == routes[1..][i - 1];
        match rest
        case Err(e) => Err(e)
        case Ok(bs) => Ok([b] + bs)
  }

  function Marker(request: RouteSearchRequest): OriginMarker {
    OriginMarker(request.originLat, request.originLng, ORIGIN_LABEL)
  }

  /** `buildNoRouteResponse`: nothing to ride, one zero-minute walk from origin to destination. */
  function NoRouteResponse(request: RouteSearchRequest): RouteResponse {
    RouteResponse(0, [StepResponse("walk", 0, ORIGIN_LABEL, DESTINATION_LABEL, None, None)], Marker(request))
  }

  /** `buildWalkOnlyResponse`: one walk whose minutes are both stops' walk times, clamped at 0. */
  function WalkOnlyResponse(request: RouteSearchRequest, departureStop: Option<StopCandidate>,
                            arrivalStop: Option<StopCandidate>): RouteResponse {
    var walk1 := if departureStop.Some? then SafeNonNegative(departureStop.value.walkTimeFromOrigin) else 0;
    var walk2 := if arrivalStop.Some? then SafeNonNegative(arrivalStop.value.walkTimeFromOrigin) else 0;
    var total := walk1 + walk2;
    RouteResponse(total, [StepResponse("walk", total, ORIGIN_LABEL, DESTINATION_LABEL, None, None)], Marker(request))
  }

  /** The walk, bus and walk steps of the chosen candidate. */
  function JourneyResponse(request: RouteSearchRequest, departureStop: StopCandidate, arrivalStop: StopCandidate,
                           best: BestCandidate): RouteResponse {
    RouteResponse(
      best.totalTime,
      [StepResponse("walk", best.walk1, ORIGIN_LABEL, departureStop.stationName, None, None),
       StepResponse("bus", best.busTravel, departureStop.stationName, arrivalStop.stationName,
                    best.routeCandidate.routeName, Some(best.waitTime)),
       StepResponse("walk", best.walk2, arrivalStop.stationName, DESTINATION_LABEL, None, None)],
      Marker(request))
  }

  /** `computeBestRoute` on the result of `routingService.findRoute`. */
  function ComputeBestRoute(request: RouteSearchRequest, candidateResponse: RoutingResponse,
                            stationArrivals: seq<ArrivalInfo>): (r: Result<RouteResponse>)
    ensures r.Ok? ==> r.value.originMarker == OriginMarker(request.originLat, request.originLng, ORIGIN_LABEL)
  {
    var departureStop := candidateResponse.departureStop;
    var arrivalStop := candidateResponse.arrivalStop;
    var routes := candidateResponse.routes;
    if departureStop.None? || arrivalStop.None? then Ok(NoRouteResponse(request))
    else if routes.None? || routes.value == [] then Ok(WalkOnlyResponse(request, departureStop, arrivalStop))
    else
      match EvaluateAll(routes.value, departureStop.value, arrivalStop.value, stationArrivals)
      case Err(e) => Err(e)
      case Ok(cs) =>
        assert |cs| == |routes.value|;
        Ok(JourneyResponse(request, departureStop.value, arrivalStop.value, cs[BestIndex(cs)]))
  }

  /** Without a departure or an arrival stop the journey takes 0 minutes: one walk of 0 minutes
      from origin to destination. */
  lemma NoStopSpec(request: RouteSearchRequest, candidateResponse: RoutingResponse, stationArrivals: seq<ArrivalInfo>)
    requires candidateResponse.departureStop.None? || candidateResponse.arrivalStop.None?
    ensures var r := ComputeBestRoute(request, candidateResponse, stationArrivals);
      r.Ok? && r.value.totalTime == 0 && |r.value.steps| == 1 &&
      r.value.steps[0] == StepResponse("walk", 0, ORIGIN_LABEL, DESTINATION_LABEL, None, None)
  {
  }

  /** With both stops but no route, the journey is one walk whose minutes are the total, the sum
      of the two walk times clamped at 0. */
  lemma NoRouteSpec(request: RouteSearchRequest, candidateResponse: RoutingResponse, stationArrivals: seq<ArrivalInfo>)
    requires candidateResponse.departureStop.Some? && candidateResponse.arrivalStop.Some?
    requires candidateResponse.routes.None? || candidateResponse.routes.value == []
    ensures var r := ComputeBestRoute(request, candidateResponse, stationArrivals);
      var w1 := candidateResponse.departureStop.value.walkTimeFromOrigin;
      var w2 := candidateResponse.arrivalStop.value.walkTimeFromOrigin;
      r.Ok? && |r.value.steps| == 1 && r.value.steps[0].kind == "walk" &&
      r.value.steps[0].duration == r.value.totalTime &&
      r.value.totalTime == (if w1 < 0 then 0 else w1) + (if w2 < 0 then 0 else w2) && r.value.totalTime >= 0
  {
  }

  /** With routes to choose from, the call fails exactly when scoring some candidate makes the
      provider throw. */
  lemma ChosenRouteFails(request: RouteSearchRequest, candidateResponse: RoutingResponse, stationArrivals: seq<ArrivalInfo>)
    requires candidateResponse.departureStop.Some? && candidateResponse.arrivalStop.Some?
    requires candidateResponse.routes.Some? && candidateResponse.routes.value != []
    ensures var routes := candidateResponse.routes.value;
      ComputeBestRoute(request, candidateResponse, stationArrivals).Err? <==>
      exists i :: 0 <= i < |routes| && ResolveWaitTime(routes[i], stationArrivals).Err?
  {
    var routes := candidateResponse.routes.value;
    var d := candidateResponse.departureStop.value;
    var a := candidateResponse.arrivalStop.value;
    assert forall i :: 0 <= i < |routes| ==>
      (Evaluate(routes[i], d, a, stationArrivals).Err? <==> ResolveWaitTime(routes[i], stationArrivals).Err?);
  }

  /** With routes to choose from, a successful answer is the walk, bus, walk journey of a candidate
      that no other candidate beats and that beats every candidate listed before it; its step
      minutes plus the wait make up the total, and the bus step names the chosen route. */
  lemma ChosenRouteSpec(request: RouteSearchRequest, candidateResponse: RoutingResponse, stationArrivals: seq<ArrivalInfo>)
    requires candidateResponse.departureStop.Some? && candidateResponse.arrivalStop.Some?
    requires candidateResponse.routes.Some? && candidateResponse.routes.value != []
    requires ComputeBestRoute(request, candidateResponse, stationArrivals).Ok?
    ensures var r := ComputeBestRoute(request, candidateResponse, stationArrivals).value;
      var routes := candidateResponse.routes.value;
      var d := candidateResponse.departureStop.value;
      var a := candidateResponse.arrivalStop.value;
      |r.steps| == 3 && r.steps[0].kind == "walk" && r.steps[1].kind == "bus" && r.steps[2].kind == "walk" &&
      r.steps[1].waitTime.Some? &&
      r.totalTime == r.steps[0].duration + r.steps[1].waitTime.value + r.steps[1].duration + r.steps[2].duration &&
      exists i :: 0 <= i < |routes| && ChosenAmong(routes, d, a, stationArrivals, i, r)
  {
    var routes := candidateResponse.routes.value;
    var d := candidateResponse.departureStop.value;
    var a := candidateResponse.arrivalStop.value;
    var cs := EvaluateAll(routes, d, a, stationArrivals).value;
    var i := BestIndex(cs);
    assert ChosenAmong(routes, d, a, stationArrivals, i, ComputeBestRoute(request, candidateResponse, stationArrivals).value);
  }

  /** Candidate `i` is the one `r` rides: it scores `b`, no candidate scores better than `b`, every
      earlier one scores worse, and `r` takes `b`'s minutes and `i`'s route name. */
  ghost predicate ChosenAmong(routes: seq<RouteCandidate>, d: StopCandidate, a: StopCandidate,
                              stationArrivals: seq<ArrivalInfo>, i: int, r: RouteResponse)
    requires 0 <= i < |routes|
  {
    var e := Evaluate(routes[i], d, a, stationArrivals);
    e.Ok? && r.totalTime == e.value.totalTime && |r.steps| == 3 &&
    r.steps[1].line == routes[i].routeName && r.steps[1].waitTime == Some(e.value.waitTime) &&
    (forall j :: 0 <= j < |routes| ==>
       Evaluate(routes[j], d, a, stationArrivals).Ok? && !Better(Evaluate(routes[j], d, a, stationArrivals).value, e.value)) &&
    (forall j :: 0 <= j < i ==> Better(e.value, Evaluate(routes[j], d, a, stationArrivals).value))
  }
}
