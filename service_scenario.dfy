/** The twelve-event feed of the journey service's test, evaluated in the
    model by proof: two direct journeys and two one-stop journeys are
    built, the rest are dropped for their date, their layover or their
    total duration. */
module ServiceScenario {
  import opened Wrappers
  import opened DateTimes
  import opened FlightEventDto
  import opened FlightFilterDto
  import opened StrategyBase
  import opened FlightCommons
  import DirectFlights
  import OneStop
  import JourneyService
  import Scenarios

  /** The feed, decoded: every time is a naive `isoformat()` text. */
  const ServiceLegs: seq<FlightEvent> := [
    Scenarios.Leg("AR1000", "BUE", "MAD", Scenarios.At(2024, 9, 12, 7, 0), Scenarios.At(2024, 9, 12, 15, 0)),
    Scenarios.Leg("AR1001", "BUE", "MAD", Scenarios.At(2024, 9, 13, 10, 0), Scenarios.At(2024, 9, 13, 18, 0)),
    Scenarios.Leg("AR1002", "BUE", "MAD", Scenarios.At(2024, 9, 13, 5, 0), Scenarios.At(2024, 9, 13, 13, 0)),
    Scenarios.Leg("AR1003", "BUE", "MAD", Scenarios.At(2024, 9, 13, 14, 0), Scenarios.At(2024, 9, 14, 22, 0)),
    Scenarios.Leg("LA2000", "BUE", "GRU", Scenarios.At(2024, 9, 12, 6, 0), Scenarios.At(2024, 9, 12, 9, 0)),
    Scenarios.Leg("LA2000", "GRU", "MAD", Scenarios.At(2024, 9, 12, 14, 0), Scenarios.At(2024, 9, 12, 19, 0)),
    Scenarios.Leg("AA3000", "BUE", "JFK", Scenarios.At(2024, 9, 13, 8, 0), Scenarios.At(2024, 9, 13, 16, 0)),
    Scenarios.Leg("AA3100", "JFK", "MAD", Scenarios.At(2024, 9, 13, 18, 0), Scenarios.At(2024, 9, 14, 2, 0)),
    Scenarios.Leg("LA4000", "BUE", "SCL", Scenarios.At(2024, 9, 13, 9, 0), Scenarios.At(2024, 9, 13, 11, 30)),
    Scenarios.Leg("LA4100", "SCL", "MAD", Scenarios.At(2024, 9, 13, 13, 0), Scenarios.At(2024, 9, 14, 21, 30)),
    Scenarios.Leg("LA5000", "BUE", "ATL", Scenarios.At(2024, 9, 13, 5, 0), Scenarios.At(2024, 9, 13, 7, 30)),
    Scenarios.Leg("LA5100", "ATL", "MAD", Scenarios.At(2024, 9, 13, 9, 0), Scenarios.At(2024, 9, 13, 17, 40))]

  const ServiceFilter := FlightFilter(Date(2024, 9, 13), "BUE", "MAD")

  /** Four more legs none of which is direct add no journey. */
  lemma DirectSkipFour(legs: seq<FlightEvent>, i: nat, filter: FlightFilter, before: seq<Journey>)
    requires i + 4 <= |legs|
    requires DirectFlights.Execute(legs[..i], filter, DefaultConfig) == before
    requires forall k :: i <= k < i + 4 ==> !DirectFlights.IsDirect(legs[k], filter, DefaultConfig)
    ensures DirectFlights.Execute(legs[..i + 4], filter, DefaultConfig) == before
  {
    Scenarios.DirectStep(legs, i, filter, before, false);
    Scenarios.DirectStep(legs, i + 1, filter, before, false);
    Scenarios.DirectStep(legs, i + 2, filter, before, false);
    Scenarios.DirectStep(legs, i + 3, filter, before, false);
  }

  /** Of four legs, only the second and third direct: those two journeys. */
  lemma KeepSecondThirdOfFour(legs: seq<FlightEvent>, filter: FlightFilter)
    requires |legs| >= 4
    requires !DirectFlights.IsDirect(legs[0], filter, DefaultConfig) && DirectFlights.IsDirect(legs[1], filter, DefaultConfig)
    requires DirectFlights.IsDirect(legs[2], filter, DefaultConfig) && !DirectFlights.IsDirect(legs[3], filter, DefaultConfig)
    ensures DirectFlights.Execute(legs[..4], filter, DefaultConfig) == [Journey(0, [legs[1]]), Journey(0, [legs[2]])]
  {
    var k2, k3 := Journey(0, [legs[1]]), Journey(0, [legs[2]]);
    assert legs[..0] == [];
    Scenarios.DirectStep(legs, 0, filter, [], false);
    Scenarios.DirectStep(legs, 1, filter, [], true);
    Scenarios.DirectStep(legs, 2, filter, [k2], true);
    Scenarios.DirectStep(legs, 3, filter, [k2, k3], false);
  }

  /** The second and third legs are the direct flights: the first leaves the
      day before, the fourth takes 32 hours. */
  lemma ServiceDirectVerdicts()
    ensures !DirectFlights.IsDirect(ServiceLegs[0], ServiceFilter, DefaultConfig)
    ensures DirectFlights.IsDirect(ServiceLegs[1], ServiceFilter, DefaultConfig)
    ensures DirectFlights.IsDirect(ServiceLegs[2], ServiceFilter, DefaultConfig)
    ensures !DirectFlights.IsDirect(ServiceLegs[3], ServiceFilter, DefaultConfig)
  {
  }

  /** No other leg goes from BUE to MAD. */
  lemma ServiceRouteVerdicts()
    ensures forall k :: 4 <= k < |ServiceLegs| ==> !DirectFlights.IsDirect(ServiceLegs[k], ServiceFilter, DefaultConfig)
  {
  }

  /** Twelve legs of which only the second and third are direct give those
      two journeys, in input order. */
  lemma KeepSecondThird(legs: seq<FlightEvent>, filter: FlightFilter)
    requires |legs| == 12
    requires !DirectFlights.IsDirect(legs[0], filter, DefaultConfig) && DirectFlights.IsDirect(legs[1], filter, DefaultConfig)
    requires DirectFlights.IsDirect(legs[2], filter, DefaultConfig) && !DirectFlights.IsDirect(legs[3], filter, DefaultConfig)
    requires forall k :: 4 <= k < |legs| ==> !DirectFlights.IsDirect(legs[k], filter, DefaultConfig)
    ensures DirectFlights.Execute(legs, filter, DefaultConfig) == [Journey(0, [legs[1]]), Journey(0, [legs[2]])]
  {
    var kept := [Journey(0, [legs[1]]), Journey(0, [legs[2]])];
    KeepSecondThirdOfFour(legs, filter);
    DirectSkipFour(legs, 4, filter, kept);
    DirectSkipFour(legs, 8, filter, kept);
    assert legs[..12] == legs;
  }

  /** The direct strategy keeps AR1001 and AR1002, in input order. */
  lemma ServiceDirectJourneys()
    ensures DirectFlights.Execute(ServiceLegs, ServiceFilter, DefaultConfig)
            == [Journey(0, [ServiceLegs[1]]), Journey(0, [ServiceLegs[2]])]
  {
    ServiceDirectVerdicts();
    ServiceRouteVerdicts();
    KeepSecondThird(ServiceLegs, ServiceFilter);
  }

  /** A first leg none of whose candidates is a stopover has no stopover. */
  lemma {:induction false} NoStopovers(a: FlightEvent, legs: seq<FlightEvent>, destination: string, config: Config)
    requires forall k :: 0 <= k < |legs| ==> !OneStop.IsStopover(a, legs[k], destination, config)
    ensures OneStop.Stopovers(a, legs, destination, config) == []
    decreases |legs|
  {
    if legs != [] {
      NoStopovers(a, legs[..|legs| - 1], destination, config);
    }
  }

  /** When no leg leaves from where `a` lands, `a` starts no journey. */
  lemma NoConnectingLeg(a: FlightEvent, legs: seq<FlightEvent>, destination: string, config: Config)
    requires forall k :: 0 <= k < |legs| ==> legs[k].departureCity != a.arrivalCity
    ensures OneStop.LegJourneys(a, legs, destination, config) == []
  {
    NoStopovers(a, legs, destination, config);
  }

  /** When only `legs[m]` leaves from where `a` lands, it is the one
      candidate: the stopovers after `a` are that leg if it qualifies, and
      none otherwise. */
  lemma {:induction false} OnlyCandidate(a: FlightEvent, legs: seq<FlightEvent>, m: nat, destination: string, config: Config)
    requires m < |legs|
    requires forall k :: 0 <= k < |legs| && k != m ==> legs[k].departureCity != a.arrivalCity
    ensures OneStop.Stopovers(a, legs, destination, config)
            == if OneStop.IsStopover(a, legs[m], destination, config) then [legs[m]] else []
    decreases |legs|
  {
    var n := |legs| - 1;
    var prefix := legs[..n];
    if m == n {
      assert forall k :: 0 <= k < |prefix| ==> prefix[k] == legs[k];
      NoStopovers(a, prefix, destination, config);
    } else {
      assert !OneStop.IsStopover(a, legs[n], destination, config);
      OnlyCandidate(a, prefix, m, destination, config);
    }
  }

  /** With one candidate second leg, `a` starts the journey through it if
      that is a stopover and the pair fits the maximum duration, and no
      journey otherwise. */
  lemma OnlyConnectingLeg(a: FlightEvent, legs: seq<FlightEvent>, m: nat, destination: string, config: Config)
    requires m < |legs|
    requires forall k :: 0 <= k < |legs| && k != m ==> legs[k].departureCity != a.arrivalCity
    ensures OneStop.LegJourneys(a, legs, destination, config)
            == if OneStop.IsStopover(a, legs[m], destination, config)
                  && IsWithinMaxDuration([a, legs[m]], config.maxJourneyHours)
               then [Journey(1, [a, legs[m]])] else []
  {
    OnlyCandidate(a, legs, m, destination, config);
    assert [legs[m]][..0] == [];
  }

  /** One more element through a flat map appends its image. */
  lemma FlatMapStep<T, U>(f: T -> seq<U>, xs: seq<T>, i: nat, before: seq<U>)
    requires i < |xs|
    requires OneStop.FlatMap(f, xs[..i]) == before
    ensures OneStop.FlatMap(f, xs[..i + 1]) == before + f(xs[i])
  {
    assert xs[..i + 1][..i] == xs[..i];
  }

  /** Four more elements of which only the third has a non-empty image. */
  lemma FlatMapThirdOfFour<T, U>(f: T -> seq<U>, xs: seq<T>, i: nat, before: seq<U>)
    requires i + 4 <= |xs|
    requires OneStop.FlatMap(f, xs[..i]) == before
    requires f(xs[i]) == [] && f(xs[i + 1]) == [] && f(xs[i + 3]) == []
    ensures OneStop.FlatMap(f, xs[..i + 4]) == before + f(xs[i + 2])
  {
    FlatMapStep(f, xs, i, before);
    FlatMapStep(f, xs, i + 1, before);
    FlatMapStep(f, xs, i + 2, before);
    FlatMapStep(f, xs, i + 3, before + f(xs[i + 2]));
  }

  /** Twelve elements of which only the seventh and the eleventh have a
      non-empty image. */
  lemma FlatMapSeventhAndEleventh<T, U>(f: T -> seq<U>, xs: seq<T>)
    requires |xs| == 12
    requires f(xs[0]) == [] && f(xs[1]) == [] && f(xs[2]) == [] && f(xs[3]) == []
    requires f(xs[4]) == [] && f(xs[5]) == [] && f(xs[7]) == []
    requires f(xs[8]) == [] && f(xs[9]) == [] && f(xs[11]) == []
    ensures OneStop.FlatMap(f, xs) == f(xs[6]) + f(xs[10])
  {
    assert xs[..0] == [];
    FlatMapStep(f, xs, 0, []);
    FlatMapStep(f, xs, 1, []);
    FlatMapStep(f, xs, 2, []);
    FlatMapStep(f, xs, 3, []);
    FlatMapThirdOfFour(f, xs, 4, []);
    FlatMapThirdOfFour(f, xs, 8, f(xs[6]));
    assert xs[..12] == xs;
  }

  /** Of twelve legs, those at positions 0 to 3, 5, 7, 9 and 11 land at
      the destination, which no leg leaves: none of them starts a journey. */
  lemma ArrivalsStartNothing(legs: seq<FlightEvent>, destination: string, config: Config)
    requires |legs| == 12
    requires forall k :: 0 <= k < |legs| ==> legs[k].departureCity != destination
    requires && legs[0].arrivalCity == destination && legs[1].arrivalCity == destination
             && legs[2].arrivalCity == destination && legs[3].arrivalCity == destination
             && legs[5].arrivalCity == destination && legs[7].arrivalCity == destination
             && legs[9].arrivalCity == destination && legs[11].arrivalCity == destination
    ensures && OneStop.LegJourneys(legs[0], legs, destination, config) == []
            && OneStop.LegJourneys(legs[1], legs, destination, config) == []
            && OneStop.LegJourneys(legs[2], legs, destination, config) == []
            && OneStop.LegJourneys(legs[3], legs, destination, config) == []
    ensures && OneStop.LegJourneys(legs[5], legs, destination, config) == []
            && OneStop.LegJourneys(legs[7], legs, destination, config) == []
            && OneStop.LegJourneys(legs[9], legs, destination, config) == []
            && OneStop.LegJourneys(legs[11], legs, destination, config) == []
  {
    forall k | 0 <= k < |legs| && legs[k].arrivalCity == destination
      ensures OneStop.LegJourneys(legs[k], legs, destination, config) == []
    {
      NoConnectingLeg(legs[k], legs, destination, config);
    }
  }

  /** Twelve first legs of which only the seventh and the eleventh start a
      journey, each through the leg after it. */
  lemma SeventhAndEleventh(legs: seq<FlightEvent>, destination: string, config: Config)
    requires |legs| == 12
    requires && OneStop.LegJourneys(legs[0], legs, destination, config) == []
             && OneStop.LegJourneys(legs[1], legs, destination, config) == []
             && OneStop.LegJourneys(legs[2], legs, destination, config) == []
             && OneStop.LegJourneys(legs[3], legs, destination, config) == []
    requires && OneStop.LegJourneys(legs[4], legs, destination, config) == []
             && OneStop.LegJourneys(legs[5], legs, destination, config) == []
             && OneStop.LegJourneys(legs[6], legs, destination, config) == [Journey(1, [legs[6], legs[7]])]
             && OneStop.LegJourneys(legs[7], legs, destination, config) == []
    requires && OneStop.LegJourneys(legs[8], legs, destination, config) == []
             && OneStop.LegJourneys(legs[9], legs, destination, config) == []
             && OneStop.LegJourneys(legs[10], legs, destination, config) == [Journey(1, [legs[10], legs[11]])]
             && OneStop.LegJourneys(legs[11], legs, destination, config) == []
    ensures OneStop.Connections(legs, legs, destination, config)
            == [Journey(1, [legs[6], legs[7]]), Journey(1, [legs[10], legs[11]])]
  {
    FlatMapSeventhAndEleventh(a => OneStop.LegJourneys(a, legs, destination, config), legs);
  }

  /** No leg of the feed leaves MAD. */
  lemma NothingLeavesMad()
    ensures forall k :: 0 <= k < |ServiceLegs| ==> ServiceLegs[k].departureCity != "MAD"
  {
  }

  /** Each connecting city is left by one leg only. */
  lemma ServiceDepartures()
    ensures forall k :: 0 <= k < |ServiceLegs| && k != 5 ==> ServiceLegs[k].departureCity != "GRU"
    ensures forall k :: 0 <= k < |ServiceLegs| && k != 7 ==> ServiceLegs[k].departureCity != "JFK"
    ensures forall k :: 0 <= k < |ServiceLegs| && k != 9 ==> ServiceLegs[k].departureCity != "SCL"
    ensures forall k :: 0 <= k < |ServiceLegs| && k != 11 ==> ServiceLegs[k].departureCity != "ATL"
  {
  }

  /** The five-hour wait in GRU is over the four-hour layover bound; the
      JFK and ATL pairs fit in 24 hours; the SCL pair takes 36.5 hours. */
  lemma ServiceConnectionVerdicts()
    ensures !OneStop.IsStopover(ServiceLegs[4], ServiceLegs[5], "MAD", DefaultConfig)
    ensures OneStop.IsStopover(ServiceLegs[6], ServiceLegs[7], "MAD", DefaultConfig)
    ensures IsWithinMaxDuration([ServiceLegs[6], ServiceLegs[7]], 24)
    ensures OneStop.IsStopover(ServiceLegs[8], ServiceLegs[9], "MAD", DefaultConfig)
    ensures !IsWithinMaxDuration([ServiceLegs[8], ServiceLegs[9]], 24)
    ensures OneStop.IsStopover(ServiceLegs[10], ServiceLegs[11], "MAD", DefaultConfig)
    ensures IsWithinMaxDuration([ServiceLegs[10], ServiceLegs[11]], 24)
  {
  }

  /** The first legs that land in MAD start no journey. */
  lemma ServiceArrivalsAtMad()
    ensures && OneStop.LegJourneys(ServiceLegs[0], ServiceLegs, "MAD", DefaultConfig) == []
            && OneStop.LegJourneys(ServiceLegs[1], ServiceLegs, "MAD", DefaultConfig) == []
            && OneStop.LegJourneys(ServiceLegs[2], ServiceLegs, "MAD", DefaultConfig) == []
            && OneStop.LegJourneys(ServiceLegs[3], ServiceLegs, "MAD", DefaultConfig) == []
    ensures && OneStop.LegJourneys(ServiceLegs[5], ServiceLegs, "MAD", DefaultConfig) == []
            && OneStop.LegJourneys(ServiceLegs[7], ServiceLegs, "MAD", DefaultConfig) == []
            && OneStop.LegJourneys(ServiceLegs[9], ServiceLegs, "MAD", DefaultConfig) == []
            && OneStop.LegJourneys(ServiceLegs[11], ServiceLegs, "MAD", DefaultConfig) == []
  {
    NothingLeavesMad();
    ArrivalsStartNothing(ServiceLegs, "MAD", DefaultConfig);
  }

  /** The first legs that land elsewhere: only AA3000 and LA5000 start a
      journey. GRU is left too late, and the SCL pair is too long. */
  lemma ServiceConnectingLegs()
    ensures OneStop.LegJourneys(ServiceLegs[4], ServiceLegs, "MAD", DefaultConfig) == []
    ensures OneStop.LegJourneys(ServiceLegs[6], ServiceLegs, "MAD", DefaultConfig)
            == [Journey(1, [ServiceLegs[6], ServiceLegs[7]])]
    ensures OneStop.LegJourneys(ServiceLegs[8], ServiceLegs, "MAD", DefaultConfig) == []
    ensures OneStop.LegJourneys(ServiceLegs[10], ServiceLegs, "MAD", DefaultConfig)
            == [Journey(1, [ServiceLegs[10], ServiceLegs[11]])]
  {
    ServiceDepartures();
    ServiceConnectionVerdicts();
    OnlyConnectingLeg(ServiceLegs[4], ServiceLegs, 5, "MAD", DefaultConfig);
    OnlyConnectingLeg(ServiceLegs[6], ServiceLegs, 7, "MAD", DefaultConfig);
    OnlyConnectingLeg(ServiceLegs[8], ServiceLegs, 9, "MAD", DefaultConfig);
    OnlyConnectingLeg(ServiceLegs[10], ServiceLegs, 11, "MAD", DefaultConfig);
  }

  /** The one-stop strategy builds AA3000 then AA3100, and LA5000 then
      LA5100, in that order. */
  lemma ServiceOneStopJourneys()
    ensures OneStop.OneStopJourneys(ServiceLegs, ServiceFilter, DefaultConfig)
            == [Journey(1, [ServiceLegs[6], ServiceLegs[7]]), Journey(1, [ServiceLegs[10], ServiceLegs[11]])]
  {
    ServiceArrivalsAtMad();
    ServiceConnectingLegs();
    SeventhAndEleventh(ServiceLegs, "MAD", DefaultConfig);
  }

  /** Both strategies together: AR1001 and AR1002 direct, then AA3000 with
      AA3100 and LA5000 with LA5100. LA2000's five-hour wait in GRU and the
      36.5 hours of LA4000 with LA4100 are refused. */
  lemma ServiceJourneys()
    ensures JourneyService.AllJourneys(ServiceLegs, ServiceFilter, DefaultConfig)
            == [Journey(0, [ServiceLegs[1]]), Journey(0, [ServiceLegs[2]]),
                Journey(1, [ServiceLegs[6], ServiceLegs[7]]), Journey(1, [ServiceLegs[10], ServiceLegs[11]])]
  {
    ServiceDirectJourneys();
    ServiceOneStopJourneys();
  }

  /** The raw object `create_flight_event_dict` builds for a leg, with
      `isoformat()` texts for its times. */
  function RawOf(e: FlightEvent): (data: RawEvent)
    ensures data.Keys == {"flight_number", "departure_city", "arrival_city", "departure_datetime", "arrival_datetime"}
  {
    map["flight_number" := e.flightNumber, "departure_city" := e.departureCity, "arrival_city" := e.arrivalCity,
        "departure_datetime" := IsoFormat(e.departureDatetime), "arrival_datetime" := IsoFormat(e.arrivalDatetime)]
  }

  /** A leg written as its raw object decodes back to the leg. */
  lemma RawOfRoundTrip(e: FlightEvent)
    requires ValidDateTime(e.departureDatetime) && e.departureDatetime.utcOffset.None?
    requires ValidDateTime(e.arrivalDatetime) && e.arrivalDatetime.utcOffset.None?
    ensures FromDict(RawOf(e)) == Success(e)
  {
    NaiveTimestampRoundTrip(e.departureDatetime);
    NaiveTimestampRoundTrip(e.arrivalDatetime);
  }

  /** The list the mocked adapter returns: each leg as its raw object. */
  function FeedOf(legs: seq<FlightEvent>): (raws: seq<RawEvent>)
    ensures |raws| == |legs| && forall k :: 0 <= k < |legs| ==> raws[k] == RawOf(legs[k])
  {
    seq(|legs|, k requires 0 <= k < |legs| => RawOf(legs[k]))
  }

  /** A decoder that gives `values[k]` for each `raws[k]` decodes the whole
      list to `values`. */
  lemma DecodeAllOf<R, T, E>(decode: R -> Result<T, E>, raws: seq<R>, values: seq<T>)
    requires |raws| == |values|
    requires forall k :: 0 <= k < |raws| ==> decode(raws[k]) == Success(values[k])
    ensures JourneyService.DecodeAll(decode, raws) == Success(values)
  {
    var r := JourneyService.DecodeAll(decode, raws);
    assert r.Success?;
    assert forall k :: 0 <= k < |raws| ==> r.value[k] == values[k];
    assert r.value == values;
  }

  /** A non-empty list of legs written as raw objects is decoded back to the
      same legs, in order. */
  lemma FeedRoundTrip(legs: seq<FlightEvent>)
    requires legs != []
    requires forall k :: 0 <= k < |legs| ==> ValidDateTime(legs[k].departureDatetime) && legs[k].departureDatetime.utcOffset.None?
    requires forall k :: 0 <= k < |legs| ==> ValidDateTime(legs[k].arrivalDatetime) && legs[k].arrivalDatetime.utcOffset.None?
    ensures JourneyService.GetFlightEvents(Some(FeedOf(legs))) == Success(legs)
  {
    var raws := FeedOf(legs);
    forall k | 0 <= k < |legs|
      ensures FromDict(raws[k]) == Success(legs[k])
    {
      RawOfRoundTrip(legs[k]);
    }
    DecodeAllOf(FromDict, raws, legs);
  }

  /** Every time of the feed is a valid naive time. */
  lemma ServiceTimesValid()
    ensures forall k :: 0 <= k < |ServiceLegs| ==> ValidDateTime(ServiceLegs[k].departureDatetime) && ServiceLegs[k].departureDatetime.utcOffset.None?
    ensures forall k :: 0 <= k < |ServiceLegs| ==> ValidDateTime(ServiceLegs[k].arrivalDatetime) && ServiceLegs[k].arrivalDatetime.utcOffset.None?
  {
    assert forall k :: 0 <= k < |ServiceLegs| ==> ServiceLegs[k].departureDatetime.date.year == 2024;
  }

  /** `build_journeys` with the adapter mocked to return the raw objects of
      `legs`: both strategies run on exactly those legs. */
  method BuildOnFeed(legs: seq<FlightEvent>, flightFilter: FlightFilter)
    returns (r: Result<seq<Journey>, JourneyService.ServiceError>)
    requires legs != []
    requires forall k :: 0 <= k < |legs| ==> ValidDateTime(legs[k].departureDatetime) && legs[k].departureDatetime.utcOffset.None?
    requires forall k :: 0 <= k < |legs| ==> ValidDateTime(legs[k].arrivalDatetime) && legs[k].arrivalDatetime.utcOffset.None?
    ensures r == Success(JourneyService.AllJourneys(legs, flightFilter, DefaultConfig))
  {
    FeedRoundTrip(legs);
    r := JourneyService.BuildJourneys(Some(FeedOf(legs)), flightFilter, DefaultConfig);
  }

  /** What the test checks of the four journeys: two with no connection and
      one leg, then two with one connection and two legs, all leaving the
      origin and ending at the destination. */
  lemma FourJourneysAsAsserted(js: seq<Journey>, legs: seq<FlightEvent>, origin: string, destination: string)
    requires |legs| == 12
    requires js == [Journey(0, [legs[1]]), Journey(0, [legs[2]]),
                    Journey(1, [legs[6], legs[7]]), Journey(1, [legs[10], legs[11]])]
    requires && legs[1].departureCity == origin && legs[2].departureCity == origin
             && legs[6].departureCity == origin && legs[10].departureCity == origin
    requires && legs[1].arrivalCity == destination && legs[2].arrivalCity == destination
             && legs[7].arrivalCity == destination && legs[11].arrivalCity == destination
    ensures |js| == 4
    ensures forall i :: 0 <= i < 2 ==> js[i].connections == 0 && |js[i].path| == 1
    ensures forall i :: 2 <= i < 4 ==> js[i].connections == 1 && |js[i].path| == 2
    ensures forall j :: j in js ==> j.path != [] && j.path[0].departureCity == origin
    ensures forall j :: j in js ==> j.path != [] && j.path[|j.path| - 1].arrivalCity == destination
  {
  }

  /** `build_journeys` on the test's feed returns four journeys: the two
      direct ones, each a single leg, then the two with one connection, each
      of two legs; every one leaves BUE and ends in MAD. */
  method ServiceBuild() returns (r: Result<seq<Journey>, JourneyService.ServiceError>)
    ensures r == Success([Journey(0, [ServiceLegs[1]]), Journey(0, [ServiceLegs[2]]),
                          Journey(1, [ServiceLegs[6], ServiceLegs[7]]), Journey(1, [ServiceLegs[10], ServiceLegs[11]])])
    ensures r.Success? && |r.value| == 4
    ensures forall i :: 0 <= i < 2 ==> r.value[i].connections == 0 && |r.value[i].path| == 1
    ensures forall i :: 2 <= i < 4 ==> r.value[i].connections == 1 && |r.value[i].path| == 2
    ensures forall j :: j in r.value ==> j.path != [] && j.path[0].departureCity == "BUE"
    ensures forall j :: j in r.value ==> j.path != [] && j.path[|j.path| - 1].arrivalCity == "MAD"
  {
    ServiceTimesValid();
    ServiceJourneys();
    r := BuildOnFeed(ServiceLegs, ServiceFilter);
    FourJourneysAsAsserted(r.value, ServiceLegs, "BUE", "MAD");
  }
}
