/** The response body of the journeys endpoint: one `JourneyResponse` per
    journey, each leg rendered as a `FlightItem` whose times are written
    `%Y-%m-%d %H:%M`. */
module JourneyResponse {
  import opened Wrappers
  import opened Digits
  import opened DateTimes
  import opened FlightEventDto
  import opened StrategyBase

  /** `FlightItem`; `from` is the departure city (`from_` in the source). */
  datatype FlightItem = FlightItem(
    flightNumber: string,
    from: string,
    to: string,
    departureTime: string,
    arrivalTime: string)

  datatype Response = Response(connections: int, path: seq<FlightItem>)

  /** `strftime("%Y-%m-%d %H:%M")`: the civil date and time as stored, to the
      minute; seconds and the UTC offset are not written. */
  function Strftime(dt: DateTime): (s: string)
    ensures |s| == 16 && s[..10] == DateText(dt.date) && s[10] == ' '
  {
    DateText(dt.date) + " " + (Pad(dt.hour, 2) + ":" + Pad(dt.minute, 2))
  }

  /** The rendered text always has the fixed shape `YYYY-MM-DD HH:MM`. */
  lemma StrftimeShape(dt: DateTime)
    ensures |Strftime(dt)| == 16
    ensures Strftime(dt)[4] == '-' && Strftime(dt)[7] == '-'
    ensures Strftime(dt)[10] == ' ' && Strftime(dt)[13] == ':'
    ensures forall k :: 0 <= k < 16 && k != 4 && k != 7 && k != 10 && k != 13 ==> IsDigit(Strftime(dt)[k])
  {
    var s := Strftime(dt);
    var y, mo, d, h, mi := Pad(dt.date.year, 4), Pad(dt.date.month, 2), Pad(dt.date.day, 2), Pad(dt.hour, 2), Pad(dt.minute, 2);
    assert s == y + "-" + mo + "-" + d + " " + (h + ":" + mi);
    assert forall k :: 0 <= k < 4 ==> s[k] == y[k];
    assert forall k :: 5 <= k < 7 ==> s[k] == mo[k - 5];
    assert forall k :: 8 <= k < 10 ==> s[k] == d[k - 8];
    assert forall k :: 11 <= k < 13 ==> s[k] == h[k - 11];
    assert forall k :: 14 <= k < 16 ==> s[k] == mi[k - 14];
  }

  /** What a client reads back from a rendered time with
      `datetime.fromisoformat` is the same civil minute, naive, seconds zero:
      the text keeps the leg's own local time and drops its offset. */
  lemma StrftimeReadBack(dt: DateTime)
    requires ValidDateTime(dt)
    ensures FromIsoFormat(Strftime(dt)) == Some(DateTime(dt.date, dt.hour, dt.minute, 0, None))
  {
    var date, clock := DateText(dt.date), Pad(dt.hour, 2) + ":" + Pad(dt.minute, 2);
    SplitAtSeparator(date, ' ', clock);
    ParseDateText(dt.date);
    ParseClockText(dt.hour, dt.minute, 0);
    assert forall k :: 0 <= k < |clock| ==> clock[k] == ':' || IsDigit(clock[k]);
    ParseTimeParts(clock, Clock(dt.hour, dt.minute, 0), "", None);
    assert clock + "" == clock;
  }

  /** `FlightItem.from_dto`. */
  function ItemFromDto(dto: FlightEvent): (item: FlightItem)
    ensures item.flightNumber == dto.flightNumber
    ensures item.from == dto.departureCity && item.to == dto.arrivalCity
    ensures |item.departureTime| == 16 && item.departureTime[..10] == DateText(DepartureDate(dto))
    ensures |item.arrivalTime| == 16 && item.arrivalTime[..10] == DateText(ArrivalDate(dto))
  {
    FlightItem(dto.flightNumber, dto.departureCity, dto.arrivalCity,
               Strftime(dto.departureDatetime), Strftime(dto.arrivalDatetime))
  }

  /** `JourneyResponse.from_dto`: the connection count copied, each leg of
      the path rendered, in order. */
  function ResponseFromDto(journey: Journey): (r: Response)
    ensures r.connections == journey.connections && |r.path| == |journey.path|
    ensures forall i :: 0 <= i < |journey.path| ==> r.path[i] == ItemFromDto(journey.path[i])
  {
    Response(journey.connections, seq(|journey.path|, i requires 0 <= i < |journey.path| => ItemFromDto(journey.path[i])))
  }

  /** A rendered journey lists the same flights in the same order, from the
      first leg's departure city to the last leg's arrival city, with each
      time naming the leg's civil minute. */
  lemma ResponseDescribesJourney(journey: Journey)
    requires forall leg :: leg in journey.path ==> ValidDateTime(leg.departureDatetime) && ValidDateTime(leg.arrivalDatetime)
    ensures ResponseFromDto(journey).connections == journey.connections
    ensures |ResponseFromDto(journey).path| == |journey.path|
    ensures forall i :: 0 <= i < |journey.path| ==>
              && ResponseFromDto(journey).path[i].flightNumber == journey.path[i].flightNumber
              && ResponseFromDto(journey).path[i].from == journey.path[i].departureCity
              && ResponseFromDto(journey).path[i].to == journey.path[i].arrivalCity
              && FromIsoFormat(ResponseFromDto(journey).path[i].departureTime)
                   == Some(journey.path[i].departureDatetime.(second := 0, utcOffset := None))
              && FromIsoFormat(ResponseFromDto(journey).path[i].arrivalTime)
                   == Some(journey.path[i].arrivalDatetime.(second := 0, utcOffset := None))
  {
    forall i | 0 <= i < |journey.path|
      ensures FromIsoFormat(ResponseFromDto(journey).path[i].departureTime)
                == Some(journey.path[i].departureDatetime.(second := 0, utcOffset := None))
      ensures FromIsoFormat(ResponseFromDto(journey).path[i].arrivalTime)
                == Some(journey.path[i].arrivalDatetime.(second := 0, utcOffset := None))
    {
      assert journey.path[i] in journey.path;
      StrftimeReadBack(journey.path[i].departureDatetime);
      StrftimeReadBack(journey.path[i].arrivalDatetime);
    }
  }
}
