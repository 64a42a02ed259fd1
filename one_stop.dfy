/** `OneStopJourneyStrategy`: for every leg A of the input, scan the input
    again for legs B that continue from A's arrival city to the destination
    after a short layover, and keep the pairs whose whole journey fits the
    maximum duration. The two methods are the source's loops; the functions
    beside them say what the loops build. */
module OneStop {
  import opened Wrappers
  import opened DateTimes
  import opened FlightEventDto
  import opened FlightFilterDto
  import opened FlightCommons
  import opened StrategyBase

  /** The condition under which `find_next_stopovers` keeps `nextStop`. */
  predicate IsStopover(firstLeg: FlightEvent, nextStop: FlightEvent, destination: string, config: Config) {
    && nextStop.departureCity == firstLeg.arrivalCity
    && nextStop.arrivalCity == destination
    && Instant(nextStop.departureDatetime) > Instant(firstLeg.arrivalDatetime)
    && 0 < Instant(nextStop.departureDatetime) - Instant(firstLeg.arrivalDatetime)
            <= config.maxLayoverHours * 3600
  }

  /** What `find_next_stopovers` returns: the kept legs, in input order. */
  function Stopovers(firstLeg: FlightEvent, flightEvents: seq<FlightEvent>, destination: string, config: Config): (r: seq<FlightEvent>)
    ensures |r| <= |flightEvents|
    decreases |flightEvents|
  {
    if |flightEvents| == 0 then []
    else
      var nextStop := flightEvents[|flightEvents| - 1];
      Stopovers(firstLeg, flightEvents[..|flightEvents| - 1], destination, config)
        + (if IsStopover(firstLeg, nextStop, destination, config) then [nextStop] else [])
  }

  /** `find_next_stopovers`: `valid_connections` grows by `append`. */
  method FindNextStopovers(firstLeg: FlightEvent, flightEvents: seq<FlightEvent>, destination: string, config: Config)
    returns (validConnections: seq<FlightEvent>)
    ensures validConnections == Stopovers(firstLeg, flightEvents, destination, config)
  {
    validConnections := [];
    for i := 0 to |flightEvents|
      invariant validConnections == Stopovers(firstLeg, flightEvents[..i], destination, config)
    {
      var nextStop := flightEvents[i];
      if && nextStop.departureCity == firstLeg.arrivalCity
         && nextStop.arrivalCity == destination
         && Instant(nextStop.departureDatetime) > Instant(firstLeg.arrivalDatetime)
      {
        var layoverSeconds := Instant(nextStop.departureDatetime) - Instant(firstLeg.arrivalDatetime);
        if 0 < layoverSeconds <= config.maxLayoverHours * 3600 {
          validConnections := validConnections + [nextStop];
        }
      }
      assert flightEvents[..i + 1][..i] == flightEvents[..i];
    }
    assert flightEvents[..|flightEvents|] == flightEvents;
  }

  /** The inner loop of `execute`: one journey `[firstLeg, b]` per second leg
      `b` whose pair fits the maximum journey duration, in order. */
  function JourneysFor(firstLeg: FlightEvent, secondLegs: seq<FlightEvent>, maxJourneyHours: int): (r: seq<Journey>)
    ensures |r| <= |secondLegs|
    decreases |secondLegs|
  {
    if |secondLegs| == 0 then []
    else
      var secondLeg := secondLegs[|secondLegs| - 1];
      JourneysFor(firstLeg, secondLegs[..|secondLegs| - 1], maxJourneyHours)
        + (if IsWithinMaxDuration([firstLeg, secondLeg], maxJourneyHours)
           then [Journey(1, [firstLeg, secondLeg])] else [])
  }

  /** The journeys `execute` appends for one first leg. */
  function LegJourneys(firstLeg: FlightEvent, flightEvents: seq<FlightEvent>, destination: string, config: Config): seq<Journey> {
    JourneysFor(firstLeg, Stopovers(firstLeg, flightEvents, destination, config), config.maxJourneyHours)
  }

  /** `f` applied to every element, the results concatenated in order. */
  function FlatMap<T, U>(f: T -> seq<U>, xs: seq<T>): seq<U>
    decreases |xs|
  {
    if |xs| == 0 then [] else FlatMap(f, xs[..|xs| - 1]) + f(xs[|xs| - 1])
  }

  lemma {:induction false} FlatMapAppend<T, U>(f: T -> seq<U>, xs: seq<T>, ys: seq<T>)
    ensures FlatMap(f, xs + ys) == FlatMap(f, xs) + FlatMap(f, ys)
    decreases |ys|
  {
    if |ys| == 0 {
      assert xs + ys == xs;
    } else {
      assert (xs + ys)[..|xs + ys| - 1] == xs + ys[..|ys| - 1];
      FlatMapAppend(f, xs, ys[..|ys| - 1]);
    }
  }

  /** The outer loop of `execute` over the first legs `firstLegs`, each paired
      with its stopovers among `flightEvents`. */
  function Connections(firstLegs: seq<FlightEvent>, flightEvents: seq<FlightEvent>, destination: string, config: Config): seq<Journey> {
    FlatMap(a => LegJourneys(a, flightEvents, destination, config), firstLegs)
  }

  /** What `execute` returns: every leg of the input is tried as the first leg. */
  function OneStopJourneys(flightEvents: seq<FlightEvent>, flightFilter: FlightFilter, config: Config): seq<Journey> {
    Connections(flightEvents, flightEvents, flightFilter.destination, config)
  }

  lemma ConnectionsStep(flightEvents: seq<FlightEvent>, i: nat, destination: string, config: Config)
    requires i < |flightEvents|
    ensures Connections(flightEvents[..i + 1], flightEvents, destination, config)
            == Connections(flightEvents[..i], flightEvents, destination, config)
               + JourneysFor(flightEvents[i], Stopovers(flightEvents[i], flightEvents, destination, config),
                             config.maxJourneyHours)
  {
    assert flightEvents[..i + 1][..i] == flightEvents[..i];
  }

  /** `execute`: `connections` grows, first leg by first leg, by what the
      inner loop (`PairWithStopovers`) appends for that leg. */
  method Execute(flightEvents: seq<FlightEvent>, flightFilter: FlightFilter, config: Config)
    returns (connections: seq<Journey>)
    ensures connections == OneStopJourneys(flightEvents, flightFilter, config)
  {
    connections := [];
    for i := 0 to |flightEvents|
      invariant connections == Connections(flightEvents[..i], flightEvents, flightFilter.destination, config)
    {
      var firstLeg := flightEvents[i];
      var secondLegList := FindNextStopovers(firstLeg, flightEvents, flightFilter.destination, config);
      var journeys := [];
      if secondLegList != [] {
        journeys := PairWithStopovers(firstLeg, secondLegList, config.maxJourneyHours);
      }
      connections := connections + journeys;
      ConnectionsStep(flightEvents, i, flightFilter.destination, config);
    }
    assert flightEvents[..|flightEvents|] == flightEvents;
  }

  /** The inner loop of `execute`, over the stopovers of one first leg. */
  method PairWithStopovers(firstLeg: FlightEvent, secondLegList: seq<FlightEvent>, maxJourneyHours: int)
    returns (journeys: seq<Journey>)
    ensures journeys == JourneysFor(firstLeg, secondLegList, maxJourneyHours)
  {
    journeys := [];
    for k := 0 to |secondLegList|
      invariant journeys == JourneysFor(firstLeg, secondLegList[..k], maxJourneyHours)
    {
      var secondLeg := secondLegList[k];
      var journey := [firstLeg, secondLeg];
      if IsWithinMaxDuration(journey, maxJourneyHours) {
        journeys := journeys + [Journey(|journey| - 1, journey)];
      }
      assert secondLegList[..k + 1][..k] == secondLegList[..k];
    }
    assert secondLegList[..|secondLegList|] == secondLegList;
  }

  /** A well-formed one-stop journey from `a` to `b`, stated on instants:
      `b` continues from where `a` lands, reaches the destination, departs
      strictly after `a` arrives but at most the maximum layover later, and
      lands at most the maximum journey hours after `a` departed. Both hour
      bounds are inclusive. */
  predicate ValidConnection(a: FlightEvent, b: FlightEvent, destination: string, config: Config) {
    && b.departureCity == a.arrivalCity
    && b.arrivalCity == destination
    && Instant(a.arrivalDatetime) < Instant(b.departureDatetime)
    && Instant(b.departureDatetime) <= Instant(a.arrivalDatetime) + config.maxLayoverHours * 3600
    && Instant(b.arrivalDatetime) <= Instant(a.departureDatetime) + config.maxJourneyHours * 3600
  }

  /** `find_next_stopovers` keeps exactly the input legs that leave from the
      first leg's arrival city for the destination strictly after the first
      leg lands and at most the maximum layover later; the `0 <` test adds
      nothing to the strict time test. */
  lemma {:induction false} StopoversMember(firstLeg: FlightEvent, flightEvents: seq<FlightEvent>, destination: string, config: Config, b: FlightEvent)
    ensures b in Stopovers(firstLeg, flightEvents, destination, config) <==>
              && b in flightEvents
              && b.departureCity == firstLeg.arrivalCity
              && b.arrivalCity == destination
              && Instant(firstLeg.arrivalDatetime) < Instant(b.departureDatetime)
                   <= Instant(firstLeg.arrivalDatetime) + config.maxLayoverHours * 3600
    decreases |flightEvents|
  {
    if flightEvents != [] {
      var prefix := flightEvents[..|flightEvents| - 1];
      assert flightEvents == prefix + [flightEvents[|flightEvents| - 1]];
      StopoversMember(firstLeg, prefix, destination, config, b);
    }
  }

  /** The stopover scan distributes over concatenation: kept legs stay in
      input order. */
  lemma {:induction false} StopoversAppend(firstLeg: FlightEvent, xs: seq<FlightEvent>, ys: seq<FlightEvent>, destination: string, config: Config)
    ensures Stopovers(firstLeg, xs + ys, destination, config)
            == Stopovers(firstLeg, xs, destination, config) + Stopovers(firstLeg, ys, destination, config)
    decreases |ys|
  {
    if ys == [] {
      assert xs + ys == xs;
    } else {
      assert (xs + ys)[..|xs + ys| - 1] == xs + ys[..|ys| - 1];
      StopoversAppend(firstLeg, xs, ys[..|ys| - 1], destination, config);
    }
  }

  lemma {:induction false} JourneysForMember(firstLeg: FlightEvent, secondLegs: seq<FlightEvent>, maxJourneyHours: int, j: Journey)
    ensures j in JourneysFor(firstLeg, secondLegs, maxJourneyHours) <==>
              && j.connections == 1 && |j.path| == 2
              && j.path[0] == firstLeg && j.path[1] in secondLegs
              && Instant(j.path[1].arrivalDatetime) <= Instant(firstLeg.departureDatetime) + maxJourneyHours * 3600
    decreases |secondLegs|
  {
    if secondLegs != [] {
      var prefix := secondLegs[..|secondLegs| - 1];
      var b := secondLegs[|secondLegs| - 1];
      assert secondLegs == prefix + [b];
      assert forall x :: x in secondLegs <==> x in prefix || x == b;
      JourneysForMember(firstLeg, prefix, maxJourneyHours, j);
      if |j.path| == 2 {
        assert j.path == [j.path[0], j.path[1]];
      }
    }
  }

  lemma {:induction false} ConnectionsMember(firstLegs: seq<FlightEvent>, flightEvents: seq<FlightEvent>, destination: string, config: Config, j: Journey)
    ensures j in Connections(firstLegs, flightEvents, destination, config) <==>
              && j.connections == 1 && |j.path| == 2
              && j.path[0] in firstLegs && j.path[1] in flightEvents
              && ValidConnection(j.path[0], j.path[1], destination, config)
    decreases |firstLegs|
  {
    if firstLegs != [] {
      var prefix := firstLegs[..|firstLegs| - 1];
      var a := firstLegs[|firstLegs| - 1];
      assert firstLegs == prefix + [a];
      assert forall x :: x in firstLegs <==> x in prefix || x == a;
      ConnectionsMember(prefix, flightEvents, destination, config, j);
      var stops := Stopovers(a, flightEvents, destination, config);
      JourneysForMember(a, stops, config.maxJourneyHours, j);
      if |j.path| == 2 {
        StopoversMember(a, flightEvents, destination, config, j.path[1]);
      }
    }
  }

  /** A pair `[a, b]` is emitted iff both legs are in the input and form a
      valid connection to the filter's destination. Nothing about the first
      leg is checked against the filter's origin or date. */
  lemma OneStopMember(flightEvents: seq<FlightEvent>, flightFilter: FlightFilter, config: Config, j: Journey)
    ensures j in OneStopJourneys(flightEvents, flightFilter, config) <==>
              && j.connections == 1 && |j.path| == 2
              && j.path[0] in flightEvents && j.path[1] in flightEvents
              && ValidConnection(j.path[0], j.path[1], flightFilter.destination, config)
  {
    ConnectionsMember(flightEvents, flightEvents, flightFilter.destination, config, j);
  }

  /** Output order is outer-loop order: the journeys of earlier first legs
      come first, with nothing sorted or merged. */
  lemma ConnectionsAppend(xs: seq<FlightEvent>, ys: seq<FlightEvent>, flightEvents: seq<FlightEvent>, destination: string, config: Config)
    ensures Connections(xs + ys, flightEvents, destination, config)
            == Connections(xs, flightEvents, destination, config) + Connections(ys, flightEvents, destination, config)
  {
    FlatMapAppend(a => LegJourneys(a, flightEvents, destination, config), xs, ys);
  }

  /** Arithmetic step of the bound below, kept apart from its context. */
  lemma MulStep(n: nat, m: nat)
    ensures (n + 1) * m == n * m + m
  {
  }

  lemma {:induction false} ConnectionsSize(firstLegs: seq<FlightEvent>, flightEvents: seq<FlightEvent>, destination: string, config: Config)
    ensures |Connections(firstLegs, flightEvents, destination, config)| <= |firstLegs| * |flightEvents|
    decreases |firstLegs|
  {
    if firstLegs != [] {
      var n, m := |firstLegs| - 1, |flightEvents|;
      var a := firstLegs[n];
      var prefix := firstLegs[..n];
      ConnectionsSize(prefix, flightEvents, destination, config);
      var rest := Connections(prefix, flightEvents, destination, config);
      var last := JourneysFor(a, Stopovers(a, flightEvents, destination, config), config.maxJourneyHours);
      assert Connections(firstLegs, flightEvents, destination, config) == rest + last;
      MulStep(n, m);
    }
  }

  /** Only the filter's destination is read. */
  lemma OnlyDestinationIsRead(flightEvents: seq<FlightEvent>, f1: FlightFilter, f2: FlightFilter, config: Config)
    requires f1.destination == f2.destination
    ensures OneStopJourneys(flightEvents, f1, config) == OneStopJourneys(flightEvents, f2, config)
  {
  }
}
