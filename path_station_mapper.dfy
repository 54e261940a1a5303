/**
 * `PathStationMapper`: turns the path screen's place codes ("KNUT", "TERMINAL", "STATION") into
 * TAGO stop ids. Chungju station has a platform per direction, so its id depends on the other end.
 */
module PathStationMapper {
  import opened Wrappers
  import opened StationIds

  const INVALID_COMBINATION_MSG := "Invalid from/to combination"

  /** `resolveFromNode`: the stop to look arrivals up at. */
  function ResolveFromNode(from: string, to: string): Result<string> {
    if from == "KNUT" then Ok(KNUT)
    else if from == "TERMINAL" then Ok(TERMINAL)
    else if from == "STATION" && to == "KNUT" then Ok(STATION_TO_KNUT)
    else if from == "STATION" && to == "TERMINAL" then Ok(STATION_TO_TERMINAL)
    else Err(IllegalArgument(INVALID_COMBINATION_MSG))
  }

  /** `resolveToNode`: the stop the bus must reach. */
  function ResolveToNode(from: string, to: string): Result<string> {
    if to == "KNUT" then Ok(KNUT)
    else if to == "TERMINAL" then Ok(TERMINAL)
    else if to == "STATION" && from == "KNUT" then Ok(STATION_TO_KNUT)
    else if to == "STATION" && from == "TERMINAL" then Ok(STATION_TO_TERMINAL)
    else Err(IllegalArgument(INVALID_COMBINATION_MSG))
  }

  predicate IsPlaceCode(code: string) {
    code == "KNUT" || code == "TERMINAL" || code == "STATION"
  }

  /** The departure side: KNUT and TERMINAL resolve to themselves whatever the destination; the
      station resolves to the platform facing the destination; everything else, including station
      to station and any unknown code, is refused with the one message. */
  lemma ResolveFromNodeSpec(from: string, to: string)
    ensures from == "KNUT" ==> ResolveFromNode(from, to) == Ok(KNUT)
    ensures from == "TERMINAL" ==> ResolveFromNode(from, to) == Ok(TERMINAL)
    ensures from == "STATION" && to == "KNUT" ==> ResolveFromNode(from, to) == Ok(STATION_TO_KNUT)
    ensures from == "STATION" && to == "TERMINAL" ==> ResolveFromNode(from, to) == Ok(STATION_TO_TERMINAL)
    ensures ResolveFromNode(from, to).Err? <==>
      !(from == "KNUT" || from == "TERMINAL" || (from == "STATION" && (to == "KNUT" || to == "TERMINAL")))
    ensures ResolveFromNode(from, to).Err? ==> ResolveFromNode(from, to).error == IllegalArgument(INVALID_COMBINATION_MSG)
    ensures ResolveFromNode(from, to).Ok? ==> IsKnownStation(ResolveFromNode(from, to).value)
  {
  }

  /** The arrival side mirrors the departure side with the two ends exchanged. */
  lemma ResolveToNodeSpec(from: string, to: string)
    ensures ResolveToNode(from, to) == ResolveFromNode(to, from)
    ensures ResolveToNode(from, to).Err? <==>
      !(to == "KNUT" || to == "TERMINAL" || (to == "STATION" && (from == "KNUT" || from == "TERMINAL")))
    ensures ResolveToNode(from, to).Ok? ==> IsKnownStation(ResolveToNode(from, to).value)
  {
  }

  /** Any two distinct place codes give a usable pair of stops, and the two stops differ. */
  lemma DistinctPlacesResolve(from: string, to: string)
    requires IsPlaceCode(from) && IsPlaceCode(to) && from != to
    ensures ResolveFromNode(from, to).Ok? && ResolveToNode(from, to).Ok?
    ensures ResolveFromNode(from, to).value != ResolveToNode(from, to).value
  {
  }
}
