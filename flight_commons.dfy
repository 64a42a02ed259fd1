/** The elapsed-time check shared by the strategies. Hours are compared as
    whole seconds: `seconds / 3600 <= h` is `seconds <= h * 3600`. */
module FlightCommons {
  import opened Wrappers
  import opened DateTimes
  import opened FlightEventDto

  /** Seconds from the first leg's departure to the last leg's arrival. */
  function TotalSeconds(events: seq<FlightEvent>): int
    requires events != []
  {
    Instant(events[|events| - 1].arrivalDatetime) - Instant(events[0].departureDatetime)
  }

  /** `is_within_max_duration`. */
  function IsWithinMaxDuration(events: seq<FlightEvent>, maxHoursTravel: int): (r: bool)
    ensures r <==> (events != [] &&
                    Instant(events[|events| - 1].arrivalDatetime) <= Instant(events[0].departureDatetime) + maxHoursTravel * 3600)
  {
    if events == [] then false else TotalSeconds(events) <= maxHoursTravel * 3600
  }

  /** `is_within_max_duration_1_event`: one optional leg, false without one. */
  function IsWithinMaxDurationOneEvent(event: Option<FlightEvent>, maxHoursTravel: int): (r: bool)
    ensures r <==> (event.Some? &&
                    Instant(event.value.arrivalDatetime) <= Instant(event.value.departureDatetime) + maxHoursTravel * 3600)
  {
    match event
    case None => false
    case Some(f) => IsWithinMaxDuration([f], maxHoursTravel)
  }

  /** An empty list is never within the bound. */
  lemma EmptyIsNotWithin(maxHoursTravel: int)
    ensures !IsWithinMaxDuration([], maxHoursTravel)
  {
  }

  /** Only the two ends count: the first departure and the last arrival,
      layovers included, intermediate legs otherwise ignored. */
  lemma OnlyEndpointsCount(events: seq<FlightEvent>, maxHoursTravel: int)
    requires events != []
    ensures IsWithinMaxDuration(events, maxHoursTravel)
            == IsWithinMaxDuration([events[0], events[|events| - 1]], maxHoursTravel)
    ensures IsWithinMaxDuration(events, maxHoursTravel) <==>
              Instant(events[|events| - 1].arrivalDatetime)
                <= Instant(events[0].departureDatetime) + maxHoursTravel * 3600
  {
  }

  /** The bound is inclusive and monotone: true at equality, and what fits a
      bound fits every larger one. */
  lemma WithinIsMonotone(events: seq<FlightEvent>, h: int, h': int)
    requires events != [] && h <= h'
    ensures TotalSeconds(events) == h * 3600 ==> IsWithinMaxDuration(events, h)
    ensures IsWithinMaxDuration(events, h) ==> IsWithinMaxDuration(events, h')
  {
  }

  /** An arrival that is not after the departure satisfies any bound of zero
      hours or more: nothing here rejects time travel. */
  lemma NonPositiveSpanIsWithin(events: seq<FlightEvent>, maxHoursTravel: int)
    requires events != [] && maxHoursTravel >= 0
    requires Instant(events[|events| - 1].arrivalDatetime) <= Instant(events[0].departureDatetime)
    ensures IsWithinMaxDuration(events, maxHoursTravel)
  {
  }

  /** The single-leg variant measures that leg's own departure-to-arrival span. */
  lemma OneEventIsOwnSpan(event: Option<FlightEvent>, maxHoursTravel: int)
    ensures event.None? ==> !IsWithinMaxDurationOneEvent(event, maxHoursTravel)
    ensures event.Some? ==>
              (IsWithinMaxDurationOneEvent(event, maxHoursTravel) <==>
                 Instant(event.value.arrivalDatetime) - Instant(event.value.departureDatetime)
                   <= maxHoursTravel * 3600)
  {
  }
}
