/** What every journey-building strategy shares: the journey it emits and the
    two configured bounds, passed in rather than read from the environment. */
module StrategyBase {
  import opened FlightEventDto

  /** `{"connections": ..., "path": [...]}`. */
  datatype Journey = Journey(connections: int, path: seq<FlightEvent>)

  /** `MAX_JOURNEY_DURATION_HOURS` and `MAX_LAYOVER_HOURS`. */
  datatype Config = Config(maxJourneyHours: int, maxLayoverHours: int)

  /** The defaults used when the environment sets neither bound. */
  const DefaultConfig := Config(24, 4)
}
