/**
 * The routing DTOs that travel between `RouteFilter`, `RoutingService` and `RoutingAlgorithm`.
 * Coordinates are carried as reals and never computed with; `null` references are `None`.
 */
module RoutingDto {
  import opened Wrappers
  import opened EtaProvider

  /** `StopCandidate`: a stop near a coordinate and the minutes it takes to walk there. */
  datatype StopCandidate = StopCandidate(stationId: string, stationName: string, lat: real, lon: real,
                                         distanceFromOrigin: real, walkTimeFromOrigin: int)

  /** `RouteCandidate`: one route between the departure and the arrival stop. */
  datatype RouteCandidate = RouteCandidate(
    routeId: Option<string>,
    routeName: Option<string>,
    departureStationId: string,
    departureStationName: string,
    departureStationOrder: int,
    arrivalStationId: string,
    arrivalStationName: string,
    arrivalStationOrder: int,
    stationCount: int,
    arrivals: Option<seq<ArrivalInfo>>)

  /** `RoutingResponse`: the nearest stops, the routes joining them and a message for the user. */
  datatype RoutingResponse = RoutingResponse(departureStop: Option<StopCandidate>, arrivalStop: Option<StopCandidate>,
                                             routes: Option<seq<RouteCandidate>>, totalWalkTime: int,
                                             message: Option<string>)

  /** A freshly constructed `RoutingResponse`: every reference `null`, the walk time 0. */
  const EMPTY_RESPONSE := RoutingResponse(None, None, None, 0, None)
}
