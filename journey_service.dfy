/** `JourneyService`: fetch the raw events, decode them, and run the two
    strategies in order, concatenating what they return. The adapter's HTTP
    call is not modelled: its outcome is the `fetched` parameter (None when
    the adapter gave up, otherwise the decoded JSON list). */
module JourneyService {
  import opened Wrappers
  import opened DateTimes
  import opened FlightEventDto
  import opened FlightFilterDto
  import opened StrategyBase
  import DirectFlights
  import OneStop

  /** The exceptions that leave `build_journeys`: the one `get_flight_events`
      raises for a missing or empty list, and the one `from_dict` raises for
      a bad raw event. */
  datatype ServiceError = NoFlightEvents | InvalidEvent(cause: DecodeError)

  /** `list(map(decode, raws))` where `decode` may raise: every raw value
      decoded in order; the first one that raises ends the whole call. The
      service passes `FlightEventDTO.from_dict`. */
  function DecodeAll<R, T, E>(decode: R -> Result<T, E>, raws: seq<R>): (r: Result<seq<T>, E>)
    ensures r.Success? <==> forall i :: 0 <= i < |raws| ==> decode(raws[i]).Success?
    ensures r.Success? ==>
              |r.value| == |raws| && forall i :: 0 <= i < |raws| ==> decode(raws[i]) == Success(r.value[i])
    ensures r.Failure? ==>
              exists i :: 0 <= i < |raws| && decode(raws[i]) == Failure(r.error)
                && forall k :: 0 <= k < i ==> decode(raws[k]).Success?
    decreases |raws|
  {
    if |raws| == 0 then Success([])
    else
      var first :- decode(raws[0]);
      var rest :- DecodeAll(decode, raws[1..]);
      assert forall i :: 1 <= i < |raws| ==> raws[1..][i - 1] == raws[i];
      Success([first] + rest)
  }

  /** `get_flight_events`: fails when the adapter returned nothing or an
      empty list, and otherwise decodes every raw event. */
  function GetFlightEvents(fetched: Option<seq<RawEvent>>): (r: Result<seq<FlightEvent>, ServiceError>)
    ensures (fetched.None? || fetched.value == []) ==> r == Failure(NoFlightEvents)
    ensures r.Success? <==>
              && fetched.Some? && fetched.value != []
              && forall i :: 0 <= i < |fetched.value| ==> FromDict(fetched.value[i]).Success?
    ensures r.Success? ==>
              && |r.value| == |fetched.value|
              && forall i :: 0 <= i < |fetched.value| ==> FromDict(fetched.value[i]) == Success(r.value[i])
    ensures r.Failure? && r.error.InvalidEvent? ==>
              && fetched.Some?
              && exists i :: 0 <= i < |fetched.value| && FromDict(fetched.value[i]) == Failure(r.error.cause)
  {
    match fetched
    case None => Failure(NoFlightEvents)
    case Some(raws) =>
      if raws == [] then Failure(NoFlightEvents)
      else
        match DecodeAll(FromDict, raws)
        case Failure(e) => Failure(InvalidEvent(e))
        case Success(events) => Success(events)
  }

  /** The two strategy objects the constructor installs, in this order. */
  datatype Strategy = DirectFlightsStrategy | OneStopStrategy

  const Strategies: seq<Strategy> := [DirectFlightsStrategy, OneStopStrategy]

  /** What `strategy.execute` returns for each strategy. */
  function StrategyJourneys(strategy: Strategy, flightEvents: seq<FlightEvent>, flightFilter: FlightFilter, config: Config): seq<Journey> {
    match strategy
    case DirectFlightsStrategy => DirectFlights.Execute(flightEvents, flightFilter, config)
    case OneStopStrategy => OneStop.OneStopJourneys(flightEvents, flightFilter, config)
  }

  /** `strategy.execute(flight_events, flight_filter)`, dispatched on the strategy. */
  method ExecuteStrategy(strategy: Strategy, flightEvents: seq<FlightEvent>, flightFilter: FlightFilter, config: Config)
    returns (result: seq<Journey>)
    ensures result == StrategyJourneys(strategy, flightEvents, flightFilter, config)
  {
    match strategy
    case DirectFlightsStrategy =>
      result := DirectFlights.Execute(flightEvents, flightFilter, config);
    case OneStopStrategy =>
      result := OneStop.Execute(flightEvents, flightFilter, config);
  }

  /** The results of `strategies`, run in order, one after another. */
  function RunAll(strategies: seq<Strategy>, flightEvents: seq<FlightEvent>, flightFilter: FlightFilter, config: Config): seq<Journey>
    decreases |strategies|
  {
    if |strategies| == 0 then []
    else
      RunAll(strategies[..|strategies| - 1], flightEvents, flightFilter, config)
        + StrategyJourneys(strategies[|strategies| - 1], flightEvents, flightFilter, config)
  }

  /** Every journey `build_journeys` can return: the direct ones, then the
      one-stop ones, each in its strategy's own order, nothing sorted. */
  function AllJourneys(flightEvents: seq<FlightEvent>, flightFilter: FlightFilter, config: Config): seq<Journey> {
    DirectFlights.Execute(flightEvents, flightFilter, config) + OneStop.OneStopJourneys(flightEvents, flightFilter, config)
  }

  /** Running the installed strategies is the direct journeys followed by the
      one-stop journeys. */
  lemma RunStrategies(flightEvents: seq<FlightEvent>, flightFilter: FlightFilter, config: Config)
    ensures RunAll(Strategies, flightEvents, flightFilter, config) == AllJourneys(flightEvents, flightFilter, config)
  {
    assert Strategies[..1] == [DirectFlightsStrategy];
    assert Strategies[..1][..0] == [];
  }

  /** `build_journeys`: an error while getting the events leaves the call;
      otherwise `journeys` is extended by each strategy's result in turn. */
  method BuildJourneys(fetched: Option<seq<RawEvent>>, flightFilter: FlightFilter, config: Config)
    returns (r: Result<seq<Journey>, ServiceError>)
    ensures GetFlightEvents(fetched).Failure? ==> r == Failure(GetFlightEvents(fetched).error)
    ensures GetFlightEvents(fetched).Success? ==>
              r == Success(AllJourneys(GetFlightEvents(fetched).value, flightFilter, config))
  {
    var flightEvents :- GetFlightEvents(fetched);
    var journeys := [];
    for i := 0 to |Strategies|
      invariant journeys == RunAll(Strategies[..i], flightEvents, flightFilter, config)
    {
      var result := ExecuteStrategy(Strategies[i], flightEvents, flightFilter, config);
      journeys := journeys + result;
      assert Strategies[..i + 1][..i] == Strategies[..i];
    }
    assert Strategies[..|Strategies|] == Strategies;
    RunStrategies(flightEvents, flightFilter, config);
    return Success(journeys);
  }

  /** What every returned journey is: one leg of the input with no
      connection, or two legs of the input with one; its last leg lands at the
      destination and the whole trip takes at most the maximum journey hours.
      Only a direct journey is known to leave from the origin on the date. */
  lemma AllJourneysMember(flightEvents: seq<FlightEvent>, flightFilter: FlightFilter, config: Config, j: Journey)
    requires j in AllJourneys(flightEvents, flightFilter, config)
    ensures j.connections == |j.path| - 1 && 1 <= |j.path| <= 2
    ensures forall leg :: leg in j.path ==> leg in flightEvents
    ensures j.path[|j.path| - 1].arrivalCity == flightFilter.destination
    ensures Instant(j.path[|j.path| - 1].arrivalDatetime) <= Instant(j.path[0].departureDatetime) + config.maxJourneyHours * 3600
    ensures j.connections == 0 ==>
              j.path[0].departureCity == flightFilter.origin && DepartureDate(j.path[0]) == flightFilter.date
  {
    if j in DirectFlights.Execute(flightEvents, flightFilter, config) {
      DirectJourneyFacts(flightEvents, flightFilter, config, j);
    } else {
      OneStopJourneyFacts(flightEvents, flightFilter, config, j);
    }
  }

  /** What a direct journey of the result is. */
  lemma DirectJourneyFacts(flightEvents: seq<FlightEvent>, flightFilter: FlightFilter, config: Config, j: Journey)
    requires j in DirectFlights.Execute(flightEvents, flightFilter, config)
    ensures j.connections == |j.path| - 1 && |j.path| == 1
    ensures forall leg :: leg in j.path ==> leg in flightEvents
    ensures j.path[0].arrivalCity == flightFilter.destination
    ensures Instant(j.path[0].arrivalDatetime) <= Instant(j.path[0].departureDatetime) + config.maxJourneyHours * 3600
    ensures j.path[0].departureCity == flightFilter.origin && DepartureDate(j.path[0]) == flightFilter.date
  {
    DirectFlights.ExecuteMember(flightEvents, flightFilter, config, j);
    assert forall leg :: leg in j.path ==> leg == j.path[0];
  }

  /** What a one-stop journey of the result is. */
  lemma OneStopJourneyFacts(flightEvents: seq<FlightEvent>, flightFilter: FlightFilter, config: Config, j: Journey)
    requires j in OneStop.OneStopJourneys(flightEvents, flightFilter, config)
    ensures j.connections == |j.path| - 1 && |j.path| == 2
    ensures forall leg :: leg in j.path ==> leg in flightEvents
    ensures j.path[1].arrivalCity == flightFilter.destination
    ensures Instant(j.path[1].arrivalDatetime) <= Instant(j.path[0].departureDatetime) + config.maxJourneyHours * 3600
  {
    OneStop.OneStopMember(flightEvents, flightFilter, config, j);
    assert forall leg :: leg in j.path ==> leg == j.path[0] || leg == j.path[1];
  }

  /** Direct journeys come before one-stop journeys: the number of
      connections never decreases along the result. */
  lemma DirectJourneysFirst(flightEvents: seq<FlightEvent>, flightFilter: FlightFilter, config: Config, i: int, k: int)
    requires 0 <= i < k < |AllJourneys(flightEvents, flightFilter, config)|
    ensures AllJourneys(flightEvents, flightFilter, config)[i].connections
            <= AllJourneys(flightEvents, flightFilter, config)[k].connections
  {
    var all := AllJourneys(flightEvents, flightFilter, config);
    AllJourneysMember(flightEvents, flightFilter, config, all[i]);
    AllJourneysMember(flightEvents, flightFilter, config, all[k]);
    var direct := DirectFlights.Execute(flightEvents, flightFilter, config);
    if i < |direct| {
      assert all[i] in direct;
    } else {
      assert all[i] in OneStop.OneStopJourneys(flightEvents, flightFilter, config);
      assert all[k] == OneStop.OneStopJourneys(flightEvents, flightFilter, config)[k - |direct|];
      OneStop.OneStopMember(flightEvents, flightFilter, config, all[k]);
    }
  }
}
