/** `JourneyDirectFlights.execute`: one pass over the legs keeping each leg
    that alone takes the traveller from origin to destination on the date. */
module DirectFlights {
  import opened Wrappers
  import opened DateTimes
  import opened FlightEventDto
  import opened FlightFilterDto
  import opened FlightCommons
  import opened StrategyBase

  /** The comprehension's condition. */
  predicate IsDirect(f: FlightEvent, flightFilter: FlightFilter, config: Config) {
    && f.departureCity == flightFilter.origin
    && f.arrivalCity == flightFilter.destination
    && DepartureDate(f) == flightFilter.date
    && IsWithinMaxDurationOneEvent(Some(f), config.maxJourneyHours)
  }

  /** The list comprehension, in input order. */
  function Execute(flightEvents: seq<FlightEvent>, flightFilter: FlightFilter, config: Config): (r: seq<Journey>)
    ensures |r| <= |flightEvents|
    ensures forall j :: j in r ==> j.connections == 0 && |j.path| == 1 && j.path[0] in flightEvents
    decreases |flightEvents|
  {
    if flightEvents == [] then []
    else
      var f := flightEvents[|flightEvents| - 1];
      Execute(flightEvents[..|flightEvents| - 1], flightFilter, config)
        + (if IsDirect(f, flightFilter, config) then [Journey(0, [f])] else [])
  }

  /** A journey is emitted iff it is one leg of the input with 0 connections
      that leaves the origin on the filter's date, lands at the destination and
      takes at most the maximum journey hours (inclusive). */
  lemma {:induction false} ExecuteMember(flightEvents: seq<FlightEvent>, flightFilter: FlightFilter, config: Config, j: Journey)
    ensures j in Execute(flightEvents, flightFilter, config) <==>
              && j.connections == 0 && |j.path| == 1 && j.path[0] in flightEvents
              && j.path[0].departureCity == flightFilter.origin
              && j.path[0].arrivalCity == flightFilter.destination
              && j.path[0].departureDatetime.date == flightFilter.date
              && Instant(j.path[0].arrivalDatetime) - Instant(j.path[0].departureDatetime)
                   <= config.maxJourneyHours * 3600
    decreases |flightEvents|
  {
    if flightEvents != [] {
      var prefix := flightEvents[..|flightEvents| - 1];
      var f := flightEvents[|flightEvents| - 1];
      assert flightEvents == prefix + [f];
      assert forall x :: x in flightEvents <==> x in prefix || x == f;
      ExecuteMember(prefix, flightFilter, config, j);
      if |j.path| == 1 {
        assert j.path == [j.path[0]];
      }
    }
  }

  /** The scan distributes over concatenation: output order is input order. */
  lemma {:induction false} ExecuteAppend(xs: seq<FlightEvent>, ys: seq<FlightEvent>, flightFilter: FlightFilter, config: Config)
    ensures Execute(xs + ys, flightFilter, config)
            == Execute(xs, flightFilter, config) + Execute(ys, flightFilter, config)
    decreases |ys|
  {
    if ys == [] {
      assert xs + ys == xs;
    } else {
      var y := ys[|ys| - 1];
      assert (xs + ys)[..|xs + ys| - 1] == xs + ys[..|ys| - 1];
      ExecuteAppend(xs, ys[..|ys| - 1], flightFilter, config);
    }
  }

  /** Each leg yields at most its own one-leg journey. */
  lemma ExecuteSingle(f: FlightEvent, flightFilter: FlightFilter, config: Config)
    ensures Execute([f], flightFilter, config)
            == if IsDirect(f, flightFilter, config) then [Journey(0, [f])] else []
  {
    assert [f][..0] == [];
  }
}
