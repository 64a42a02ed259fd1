/** Worked examples: the inputs of the repository's own unit tests,
    evaluated in the model by proof, with the outcome each test expects. */
module Scenarios {
  import opened Wrappers
  import Digits
  import opened DateTimes
  import opened FlightEventDto
  import opened FlightFilterDto
  import opened StrategyBase
  import opened FlightCommons
  import DirectFlights
  import OneStop
  import JourneyService
  import JourneyResponse

  /** A naive timestamp on the minute. */
  function At(year: nat, month: nat, day: nat, hour: nat, minute: nat): DateTime {
    DateTime(Date(year, month, day), hour, minute, 0, None)
  }

  function Leg(flightNumber: string, from: string, to: string, departure: DateTime, arrival: DateTime): FlightEvent {
    FlightEvent(flightNumber, from, to, departure, arrival)
  }

  /** One leg from origin to destination on the date, ten hours long, is the
      single direct journey. */
  lemma OneDirectFlightMatch()
    ensures DirectFlights.Execute([Leg("XX1234", "BUE", "MAD", At(2024, 9, 12, 12, 0), At(2024, 9, 12, 22, 0))],
                                  FlightFilter(Date(2024, 9, 12), "BUE", "MAD"), DefaultConfig)
            == [Journey(0, [Leg("XX1234", "BUE", "MAD", At(2024, 9, 12, 12, 0), At(2024, 9, 12, 22, 0))])]
  {
    var f := Leg("XX1234", "BUE", "MAD", At(2024, 9, 12, 12, 0), At(2024, 9, 12, 22, 0));
    DirectFlights.ExecuteSingle(f, FlightFilter(Date(2024, 9, 12), "BUE", "MAD"), DefaultConfig);
  }

  /** The legs of the direct strategy's multiple-flights test. */
  const DirectLegs: seq<FlightEvent> := [
    Leg("XX1111", "BUE", "MAD", At(2024, 9, 12, 8, 0), At(2024, 9, 12, 16, 0)),
    Leg("XX1111", "BUE", "MAD", At(2024, 9, 12, 8, 0), At(2024, 9, 13, 16, 0)),
    Leg("XX1111", "BUE", "MAD", At(2024, 9, 12, 8, 0), At(2024, 9, 13, 8, 0)),
    Leg("XX2222", "BUE", "NYC", At(2024, 9, 12, 9, 0), At(2024, 9, 12, 17, 0)),
    Leg("XX2222", "NYC", "MAD", At(2024, 9, 12, 9, 0), At(2024, 9, 12, 17, 0)),
    Leg("XX2222", "BUE", "ATL", At(2024, 9, 12, 9, 0), At(2024, 9, 12, 17, 0)),
    Leg("XX3333", "BUE", "MAD", At(2024, 9, 12, 12, 0), At(2024, 9, 12, 20, 0)),
    Leg("XX3333", "BUE", "MAD", At(2024, 9, 13, 12, 0), At(2024, 9, 13, 20, 0))]

  const DirectFilter := FlightFilter(Date(2024, 9, 12), "BUE", "MAD")

  /** Leg by leg: 8 hours kept, 32 hours dropped, exactly 24 hours kept. */
  lemma DirectVerdictsFirst()
    ensures DirectFlights.IsDirect(DirectLegs[0], DirectFilter, DefaultConfig)
    ensures !DirectFlights.IsDirect(DirectLegs[1], DirectFilter, DefaultConfig)
    ensures DirectFlights.IsDirect(DirectLegs[2], DirectFilter, DefaultConfig)
  {
  }

  /** Two wrong routes, another 8-hour match, and the right route on the
      wrong date. */
  lemma DirectVerdictsLast()
    ensures !DirectFlights.IsDirect(DirectLegs[3], DirectFilter, DefaultConfig)
    ensures !DirectFlights.IsDirect(DirectLegs[4], DirectFilter, DefaultConfig)
    ensures !DirectFlights.IsDirect(DirectLegs[5], DirectFilter, DefaultConfig)
    ensures DirectFlights.IsDirect(DirectLegs[6], DirectFilter, DefaultConfig)
    ensures !DirectFlights.IsDirect(DirectLegs[7], DirectFilter, DefaultConfig)
  {
  }

  /** Four legs of which the first and third are direct give those two
      journeys, in input order. */
  lemma KeepFirstThird(legs: seq<FlightEvent>, filter: FlightFilter)
    requires |legs| >= 4
    requires DirectFlights.IsDirect(legs[0], filter, DefaultConfig) && !DirectFlights.IsDirect(legs[1], filter, DefaultConfig)
    requires DirectFlights.IsDirect(legs[2], filter, DefaultConfig) && !DirectFlights.IsDirect(legs[3], filter, DefaultConfig)
    ensures DirectFlights.Execute(legs[..4], filter, DefaultConfig) == [Journey(0, [legs[0]]), Journey(0, [legs[2]])]
  {
    var k1, k3 := Journey(0, [legs[0]]), Journey(0, [legs[2]]);
    assert legs[..0] == [];
    DirectStep(legs, 0, filter, [], true);
    DirectStep(legs, 1, filter, [k1], false);
    DirectStep(legs, 2, filter, [k1], true);
    DirectStep(legs, 3, filter, [k1, k3], false);
  }

  /** Eight legs of which the first, third and seventh are direct give
      those three journeys, in input order. */
  lemma KeepFirstThirdSeventh(legs: seq<FlightEvent>, filter: FlightFilter)
    requires |legs| == 8
    requires DirectFlights.IsDirect(legs[0], filter, DefaultConfig) && !DirectFlights.IsDirect(legs[1], filter, DefaultConfig)
    requires DirectFlights.IsDirect(legs[2], filter, DefaultConfig) && !DirectFlights.IsDirect(legs[3], filter, DefaultConfig)
    requires !DirectFlights.IsDirect(legs[4], filter, DefaultConfig) && !DirectFlights.IsDirect(legs[5], filter, DefaultConfig)
    requires DirectFlights.IsDirect(legs[6], filter, DefaultConfig) && !DirectFlights.IsDirect(legs[7], filter, DefaultConfig)
    ensures DirectFlights.Execute(legs, filter, DefaultConfig)
            == [Journey(0, [legs[0]]), Journey(0, [legs[2]]), Journey(0, [legs[6]])]
  {
    var k1, k3, k7 := Journey(0, [legs[0]]), Journey(0, [legs[2]]), Journey(0, [legs[6]]);
    KeepFirstThird(legs, filter);
    DirectStep(legs, 4, filter, [k1, k3], false);
    DirectStep(legs, 5, filter, [k1, k3], false);
    DirectStep(legs, 6, filter, [k1, k3], true);
    DirectStep(legs, 7, filter, [k1, k3, k7], false);
    assert legs[..8] == legs;
  }

  /** Of the eight legs, the three from BUE to MAD leaving on the date within
      24 hours are kept, in input order; the one of exactly 24 hours is kept. */
  lemma MultipleDirectFlights()
    ensures DirectFlights.Execute(DirectLegs, DirectFilter, DefaultConfig)
            == [Journey(0, [DirectLegs[0]]), Journey(0, [DirectLegs[2]]), Journey(0, [DirectLegs[6]])]
  {
    DirectVerdictsFirst();
    DirectVerdictsLast();
    KeepFirstThirdSeventh(DirectLegs, DirectFilter);
  }

  /** One more leg through the direct strategy: kept exactly when `kept`. */
  lemma DirectStep(legs: seq<FlightEvent>, i: nat, filter: FlightFilter, before: seq<Journey>, kept: bool)
    requires i < |legs|
    requires DirectFlights.Execute(legs[..i], filter, DefaultConfig) == before
    requires DirectFlights.IsDirect(legs[i], filter, DefaultConfig) == kept
    ensures DirectFlights.Execute(legs[..i + 1], filter, DefaultConfig)
            == before + (if kept then [Journey(0, [legs[i]])] else [])
  {
    assert legs[..i + 1][..i] == legs[..i];
  }

  const OneStopFilter := FlightFilter(Date(2024, 9, 12), "BUE", "PMI")

  /** What the one-stop strategy returns for two legs `a` then `b`, when
      only `b` can follow `a`. */
  lemma OneStopOfPair(a: FlightEvent, b: FlightEvent, filter: FlightFilter)
    requires !OneStop.IsStopover(a, a, filter.destination, DefaultConfig)
    requires OneStop.IsStopover(a, b, filter.destination, DefaultConfig)
    requires !OneStop.IsStopover(b, a, filter.destination, DefaultConfig)
    requires !OneStop.IsStopover(b, b, filter.destination, DefaultConfig)
    ensures OneStop.OneStopJourneys([a, b], filter, DefaultConfig)
            == if IsWithinMaxDuration([a, b], 24) then [Journey(1, [a, b])] else []
  {
    var legs, d := [a, b], filter.destination;
    OneStop.ConnectionsStep(legs, 0, d, DefaultConfig);
    OneStop.ConnectionsStep(legs, 1, d, DefaultConfig);
    assert legs[..0] == [] && legs[..2] == legs;
    assert legs[..1] == [a];
    assert OneStop.Stopovers(a, legs, d, DefaultConfig) == [b];
    assert OneStop.Stopovers(b, legs, d, DefaultConfig) == [];
    assert [b][..0] == [];
  }

  /** The stopovers after `x` among three legs, leg by leg. */
  lemma StopoversOfThree(x: FlightEvent, a: FlightEvent, b: FlightEvent, c: FlightEvent, d: string)
    ensures OneStop.Stopovers(x, [a, b, c], d, DefaultConfig)
            == (if OneStop.IsStopover(x, a, d, DefaultConfig) then [a] else [])
               + (if OneStop.IsStopover(x, b, d, DefaultConfig) then [b] else [])
               + (if OneStop.IsStopover(x, c, d, DefaultConfig) then [c] else [])
  {
    assert [a, b, c][..2] == [a, b] && [a, b][..1] == [a] && [a][..0] == [];
    assert OneStop.Stopovers(x, [a], d, DefaultConfig) == if OneStop.IsStopover(x, a, d, DefaultConfig) then [a] else [];
  }

  /** What the one-stop strategy returns for three legs `a`, `b`, `c`, when
      both `b` and `c` can follow `a` and nothing can follow `b` or `c`: a
      journey through `b`, then one through `c`, each when it fits the
      maximum duration. */
  lemma OneStopOfFork(a: FlightEvent, b: FlightEvent, c: FlightEvent, filter: FlightFilter)
    requires !OneStop.IsStopover(a, a, filter.destination, DefaultConfig)
    requires OneStop.IsStopover(a, b, filter.destination, DefaultConfig)
    requires OneStop.IsStopover(a, c, filter.destination, DefaultConfig)
    requires forall y :: y in [a, b, c] ==> !OneStop.IsStopover(b, y, filter.destination, DefaultConfig)
    requires forall y :: y in [a, b, c] ==> !OneStop.IsStopover(c, y, filter.destination, DefaultConfig)
    ensures OneStop.OneStopJourneys([a, b, c], filter, DefaultConfig) == JourneysForTwo(a, b, c)
  {
    var legs, d := [a, b, c], filter.destination;
    var f := x => OneStop.LegJourneys(x, legs, d, DefaultConfig);
    assert f(a) == JourneysForTwo(a, b, c) by {
      StopoversOfThree(a, a, b, c, d);
      assert OneStop.Stopovers(a, legs, d, DefaultConfig) == [b, c];
    }
    assert f(b) == [] by {
      assert a in legs && b in legs && c in legs;
      StopoversOfThree(b, a, b, c, d);
    }
    assert f(c) == [] by {
      assert a in legs && b in legs && c in legs;
      StopoversOfThree(c, a, b, c, d);
    }
    FlatMapOfThree(f, a, b, c);
  }

  lemma FlatMapOfThree<T, U>(f: T -> seq<U>, a: T, b: T, c: T)
    ensures OneStop.FlatMap(f, [a, b, c]) == f(a) + f(b) + f(c)
  {
    assert [a, b, c][..2] == [a, b] && [a, b][..1] == [a] && [a][..0] == [];
    assert OneStop.FlatMap(f, [a]) == f(a);
    assert OneStop.FlatMap(f, [a, b]) == f(a) + f(b);
  }

  /** The journeys through two second legs, in their order. */
  function JourneysForTwo(a: FlightEvent, b: FlightEvent, c: FlightEvent): (r: seq<Journey>)
    ensures r == OneStop.JourneysFor(a, [b, c], 24)
  {
    assert [b, c][..1] == [b] && [b][..0] == [];
    (if IsWithinMaxDuration([a, b], 24) then [Journey(1, [a, b])] else [])
    + (if IsWithinMaxDuration([a, c], 24) then [Journey(1, [a, c])] else [])
  }

  /** F1 lands in MAD at 13:00; F2 leaves for PMI at 14:00 and F3 at 15:30:
      two journeys, through F2 and through F3, in that order. */
  lemma MultipleValidJourneys()
    ensures OneStop.OneStopJourneys(
              [ FirstLeg,
                Leg("F2", "MAD", "PMI", At(2024, 9, 12, 14, 0), At(2024, 9, 12, 15, 0)),
                Leg("F3", "MAD", "PMI", At(2024, 9, 12, 15, 30), At(2024, 9, 12, 16, 30)) ],
              OneStopFilter, DefaultConfig)
            == [ Journey(1, [FirstLeg, Leg("F2", "MAD", "PMI", At(2024, 9, 12, 14, 0), At(2024, 9, 12, 15, 0))]),
                 Journey(1, [FirstLeg, Leg("F3", "MAD", "PMI", At(2024, 9, 12, 15, 30), At(2024, 9, 12, 16, 30))]) ]
  {
    OneStopOfFork(FirstLeg,
                  Leg("F2", "MAD", "PMI", At(2024, 9, 12, 14, 0), At(2024, 9, 12, 15, 0)),
                  Leg("F3", "MAD", "PMI", At(2024, 9, 12, 15, 30), At(2024, 9, 12, 16, 30)), OneStopFilter);
  }

  /** BUE-MAD landing 18:00, MAD-PMI leaving 19:00: one journey with one
      connection, the legs in travel order. */
  lemma ValidOneStopJourney()
    ensures OneStop.OneStopJourneys(
              [ Leg("XX1234", "BUE", "MAD", At(2024, 9, 12, 10, 0), At(2024, 9, 12, 18, 0)),
                Leg("XX2345", "MAD", "PMI", At(2024, 9, 12, 19, 0), At(2024, 9, 12, 20, 0)) ],
              OneStopFilter, DefaultConfig)
            == [Journey(1, [ Leg("XX1234", "BUE", "MAD", At(2024, 9, 12, 10, 0), At(2024, 9, 12, 18, 0)),
                             Leg("XX2345", "MAD", "PMI", At(2024, 9, 12, 19, 0), At(2024, 9, 12, 20, 0)) ])]
  {
    OneStopOfPair(Leg("XX1234", "BUE", "MAD", At(2024, 9, 12, 10, 0), At(2024, 9, 12, 18, 0)),
                  Leg("XX2345", "MAD", "PMI", At(2024, 9, 12, 19, 0), At(2024, 9, 12, 20, 0)), OneStopFilter);
  }

  /** Two legs of which neither can follow the other give no journey. */
  lemma OneStopOfUnrelatedPair(a: FlightEvent, b: FlightEvent, filter: FlightFilter)
    requires !OneStop.IsStopover(a, a, filter.destination, DefaultConfig)
    requires !OneStop.IsStopover(a, b, filter.destination, DefaultConfig)
    requires !OneStop.IsStopover(b, a, filter.destination, DefaultConfig)
    requires !OneStop.IsStopover(b, b, filter.destination, DefaultConfig)
    ensures OneStop.OneStopJourneys([a, b], filter, DefaultConfig) == []
  {
    var legs, d := [a, b], filter.destination;
    OneStop.ConnectionsStep(legs, 0, d, DefaultConfig);
    OneStop.ConnectionsStep(legs, 1, d, DefaultConfig);
    assert legs[..0] == [] && legs[..2] == legs;
    assert legs[..1] == [a];
    assert OneStop.Stopovers(a, legs, d, DefaultConfig) == [];
    assert OneStop.Stopovers(b, legs, d, DefaultConfig) == [];
  }

  /** Landing 12:00 and leaving 17:00 is a five-hour layover, over the
      four-hour bound: no journey. */
  lemma LongLayoverNoJourney()
    ensures OneStop.OneStopJourneys(
              [ Leg("XX1234", "BUE", "MAD", At(2024, 9, 12, 10, 0), At(2024, 9, 12, 12, 0)),
                Leg("XX2345", "MAD", "PMI", At(2024, 9, 12, 17, 0), At(2024, 9, 12, 18, 0)) ],
              OneStopFilter, DefaultConfig)
            == []
  {
    OneStopOfUnrelatedPair(Leg("XX1234", "BUE", "MAD", At(2024, 9, 12, 10, 0), At(2024, 9, 12, 12, 0)),
                           Leg("XX2345", "MAD", "PMI", At(2024, 9, 12, 17, 0), At(2024, 9, 12, 18, 0)), OneStopFilter);
  }

  /** The only leg out of MAD goes to BCN, not PMI: no journey. */
  lemma MissingConnection()
    ensures OneStop.OneStopJourneys(
              [ Leg("XX1234", "BUE", "MAD", At(2024, 9, 12, 10, 0), At(2024, 9, 12, 18, 0)),
                Leg("XX2345", "MAD", "BCN", At(2024, 9, 12, 19, 0), At(2024, 9, 12, 20, 0)) ],
              OneStopFilter, DefaultConfig)
            == []
  {
    OneStopOfUnrelatedPair(Leg("XX1234", "BUE", "MAD", At(2024, 9, 12, 10, 0), At(2024, 9, 12, 18, 0)),
                           Leg("XX2345", "MAD", "BCN", At(2024, 9, 12, 19, 0), At(2024, 9, 12, 20, 0)), OneStopFilter);
  }

  /** A one-hour layover, but 01:00 to 05:30 the next day is 28.5 hours in
      all: no journey. */
  lemma TooLongJourneyDropped()
    ensures OneStop.OneStopJourneys(
              [ Leg("XX1234", "BUE", "MAD", At(2024, 9, 12, 1, 0), At(2024, 9, 12, 5, 0)),
                Leg("XX2345", "MAD", "PMI", At(2024, 9, 12, 6, 0), At(2024, 9, 13, 5, 30)) ],
              OneStopFilter, DefaultConfig)
            == []
  {
    OneStopOfPair(Leg("XX1234", "BUE", "MAD", At(2024, 9, 12, 1, 0), At(2024, 9, 12, 5, 0)),
                  Leg("XX2345", "MAD", "PMI", At(2024, 9, 12, 6, 0), At(2024, 9, 13, 5, 30)), OneStopFilter);
  }

  /** The first leg need not leave from the filter's origin, nor on its
      date: a NYC-MAD leg two days later still starts a journey for a
      BUE-PMI search. */
  lemma FirstLegOriginUnchecked()
    ensures OneStop.OneStopJourneys(
              [ Leg("XX9999", "NYC", "MAD", At(2024, 9, 14, 10, 0), At(2024, 9, 14, 18, 0)),
                Leg("XX2345", "MAD", "PMI", At(2024, 9, 14, 19, 0), At(2024, 9, 14, 20, 0)) ],
              OneStopFilter, DefaultConfig)
            == [Journey(1, [ Leg("XX9999", "NYC", "MAD", At(2024, 9, 14, 10, 0), At(2024, 9, 14, 18, 0)),
                             Leg("XX2345", "MAD", "PMI", At(2024, 9, 14, 19, 0), At(2024, 9, 14, 20, 0)) ])]
  {
    OneStopOfPair(Leg("XX9999", "NYC", "MAD", At(2024, 9, 14, 10, 0), At(2024, 9, 14, 18, 0)),
                  Leg("XX2345", "MAD", "PMI", At(2024, 9, 14, 19, 0), At(2024, 9, 14, 20, 0)), OneStopFilter);
  }

  const FirstLeg := Leg("F1", "BUE", "MAD", At(2024, 9, 12, 7, 0), At(2024, 9, 12, 13, 0))

  /** A flight that leaves the connecting city an hour before the first leg
      lands there is refused. */
  lemma DepartureBeforeLanding()
    ensures OneStop.Stopovers(FirstLeg,
              [Leg("F5", "MAD", "PMI", At(2024, 9, 12, 12, 0), At(2024, 9, 12, 13, 0))],
              "PMI", DefaultConfig) == []
  {
    var early := [Leg("F5", "MAD", "PMI", At(2024, 9, 12, 12, 0), At(2024, 9, 12, 13, 0))];
    assert early[..0] == [];
  }

  /** A departure at the very minute of landing (no layover) and one ten
      hours later are both refused; departures one and two hours after
      landing are both kept, in order. */
  lemma StopoverBounds()
    ensures OneStop.Stopovers(FirstLeg,
              [ Leg("F6", "MAD", "PMI", At(2024, 9, 12, 13, 0), At(2024, 9, 12, 15, 0)),
                Leg("F7", "MAD", "PMI", At(2024, 9, 12, 23, 0), At(2024, 9, 13, 1, 0)) ],
              "PMI", DefaultConfig) == []
    ensures OneStop.Stopovers(FirstLeg,
              [ Leg("F8", "MAD", "PMI", At(2024, 9, 12, 14, 0), At(2024, 9, 12, 15, 0)),
                Leg("F9", "MAD", "PMI", At(2024, 9, 12, 15, 0), At(2024, 9, 12, 16, 0)) ],
              "PMI", DefaultConfig)
            == [ Leg("F8", "MAD", "PMI", At(2024, 9, 12, 14, 0), At(2024, 9, 12, 15, 0)),
                 Leg("F9", "MAD", "PMI", At(2024, 9, 12, 15, 0), At(2024, 9, 12, 16, 0)) ]
  {
    var refused := [ Leg("F6", "MAD", "PMI", At(2024, 9, 12, 13, 0), At(2024, 9, 12, 15, 0)),
                     Leg("F7", "MAD", "PMI", At(2024, 9, 12, 23, 0), At(2024, 9, 13, 1, 0)) ];
    var kept := [ Leg("F8", "MAD", "PMI", At(2024, 9, 12, 14, 0), At(2024, 9, 12, 15, 0)),
                  Leg("F9", "MAD", "PMI", At(2024, 9, 12, 15, 0), At(2024, 9, 12, 16, 0)) ];
    assert refused[..1] == [refused[0]] && refused[..1][..0] == [];
    assert kept[..1] == [kept[0]] && kept[..1][..0] == [];
  }

  /** The date and clock texts of the two rendered times. */
  lemma YearEndDate()
    ensures DateText(Date(2021, 12, 31)) == "2021-12-31"
  {
  }

  lemma YearEndClock()
    ensures Digits.Pad(23, 2) + ":" + Digits.Pad(59, 2) == "23:59"
  {
  }

  lemma NewYearDate()
    ensures DateText(Date(2022, 1, 1)) == "2022-01-01"
  {
  }

  lemma NoonClock()
    ensures Digits.Pad(12, 2) + ":" + Digits.Pad(0, 2) == "12:00"
  {
  }

  /** The last minute of 2021 is written with its own date, seconds cut. */
  lemma RenderYearEnd()
    ensures JourneyResponse.Strftime(DateTime(Date(2021, 12, 31), 23, 59, 59, Some(0))) == "2021-12-31 23:59"
  {
    YearEndDate();
    YearEndClock();
  }

  /** Noon of New Year's Day 2022, with leading zeros. */
  lemma RenderNewYear()
    ensures JourneyResponse.Strftime(DateTime(Date(2022, 1, 1), 12, 0, 0, Some(0))) == "2022-01-01 12:00"
  {
    NewYearDate();
    NoonClock();
  }

  /** A leg with UTC times is rendered to the minute: the seconds and the
      offset are not written, and the arrival is shown on its own date. */
  lemma RenderUtcLeg()
    ensures JourneyResponse.ItemFromDto(Leg("IB1234", "MAD", "BUE",
              DateTime(Date(2021, 12, 31), 23, 59, 59, Some(0)), DateTime(Date(2022, 1, 1), 12, 0, 0, Some(0))))
            == JourneyResponse.FlightItem("IB1234", "MAD", "BUE", "2021-12-31 23:59", "2022-01-01 12:00")
  {
    RenderYearEnd();
    RenderNewYear();
  }

  /** A raw event without its departure time is refused, naming the key. */
  lemma MissingDepartureKey()
    ensures FromDict(map["flight_number" := "IB1234", "departure_city" := "MAD", "arrival_city" := "BUE"])
            == Failure(MissingKey("departure_datetime"))
  {
  }

  /** An empty feed ends `build_journeys` with the no-events error rather
      than an empty list of journeys. */
  method EmptyFeed(flightFilter: FlightFilter) returns (r: Result<seq<Journey>, JourneyService.ServiceError>)
    ensures r == Failure(JourneyService.NoFlightEvents)
  {
    r := JourneyService.BuildJourneys(Some([]), flightFilter, DefaultConfig);
  }
}
