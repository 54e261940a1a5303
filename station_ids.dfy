/** The four stop identifiers the timetable and the path lookup are fixed to. */
module StationIds {
  /** The university stop (KNUT). */
  const KNUT: string := "CHB272043072"
  /** Chungju station, platform towards KNUT. */
  const STATION_TO_KNUT: string := "CHB272061009"
  /** Chungju station, platform towards the terminal. */
  const STATION_TO_TERMINAL: string := "CHB272061010"
  /** The Chungju intercity bus terminal. */
  const TERMINAL: string := "CHB272062029"

  predicate IsKnownStation(id: string) {
    id == KNUT || id == STATION_TO_KNUT || id == STATION_TO_TERMINAL || id == TERMINAL
  }
}
