/** One scheduled flight leg (`FlightEventDTO`) and its construction from a raw
    JSON object of the flight-events API (`from_dict`). */
module FlightEventDto {
  import opened Wrappers
  import opened DateTimes
  import opened Digits

  /** The five fields the constructor stores unchanged. */
  datatype FlightEvent = FlightEvent(
    flightNumber: string,
    departureCity: string,
    arrivalCity: string,
    departureDatetime: DateTime,
    arrivalDatetime: DateTime)

  /** The calendar date of the departure, in the departure's own offset: the
      day whose span, on that offset's clock, holds the departure. */
  function DepartureDate(e: FlightEvent): (d: Date)
    ensures ValidDateTime(e.departureDatetime) ==>
              && ValidDate(d)
              && Ordinal(d) * SecondsPerDay
                   <= Instant(e.departureDatetime) + e.departureDatetime.utcOffset.GetOr(0)
                   < (Ordinal(d) + 1) * SecondsPerDay
  {
    e.departureDatetime.date
  }

  /** The calendar date of the arrival, in the arrival's own offset. */
  function ArrivalDate(e: FlightEvent): (d: Date)
    ensures ValidDateTime(e.arrivalDatetime) ==>
              && ValidDate(d)
              && Ordinal(d) * SecondsPerDay
                   <= Instant(e.arrivalDatetime) + e.arrivalDatetime.utcOffset.GetOr(0)
                   < (Ordinal(d) + 1) * SecondsPerDay
  {
    e.arrivalDatetime.date
  }

  /** A raw event: a JSON object with string values. */
  type RawEvent = map<string, string>

  /** Why `from_dict` raises: a key it reads is absent, or a timestamp is not
      ISO-8601 text that `fromisoformat` accepts. */
  datatype DecodeError = MissingKey(key: string) | InvalidTimestamp(text: string)

  /** `str.replace("Z", "+00:00")`: every 'Z' becomes "+00:00". */
  function ReplaceZ(s: string): (r: string)
    ensures 'Z' !in r
    ensures |r| >= |s|
  {
    if s == [] then []
    else ReplaceZ(s[..|s| - 1]) + (if s[|s| - 1] == 'Z' then "+00:00" else [s[|s| - 1]])
  }

  /** Text without a 'Z' is passed on unchanged. */
  lemma {:induction false} ReplaceZIdentity(s: string)
    requires 'Z' !in s
    ensures ReplaceZ(s) == s
  {
    if s != [] {
      assert s[..|s| - 1] + [s[|s| - 1]] == s;
      ReplaceZIdentity(s[..|s| - 1]);
    }
  }

  /** A trailing 'Z' becomes the UTC offset "+00:00". */
  lemma ReplaceZSuffix(s: string)
    ensures ReplaceZ(s + "Z") == ReplaceZ(s) + "+00:00"
  {
    assert (s + "Z")[..|s|] == s;
  }

  function Field(data: RawEvent, key: string): Result<string, DecodeError> {
    if key in data then Success(data[key]) else Failure(MissingKey(key))
  }

  /** `datetime.fromisoformat(text.replace("Z", "+00:00"))`. */
  function ParseTimestamp(text: string): (r: Result<DateTime, DecodeError>)
    ensures r.Success? <==> FromIsoFormat(ReplaceZ(text)).Some?
    ensures r.Success? ==> ValidDateTime(r.value) && FromIsoFormat(ReplaceZ(text)) == Some(r.value)
    ensures r.Failure? ==> r.error == InvalidTimestamp(text)
  {
    match FromIsoFormat(ReplaceZ(text))
    case None => Failure(InvalidTimestamp(text))
    case Some(dt) => Success(dt)
  }

  /** `FlightEventDTO.from_dict`. */
  function FromDict(data: RawEvent): (r: Result<FlightEvent, DecodeError>)
    ensures r.Success? <==>
              && "flight_number" in data && "departure_city" in data && "arrival_city" in data
              && "departure_datetime" in data && "arrival_datetime" in data
              && FromIsoFormat(ReplaceZ(data["departure_datetime"])).Some?
              && FromIsoFormat(ReplaceZ(data["arrival_datetime"])).Some?
    ensures r.Success? ==>
              && r.value.flightNumber == data["flight_number"]
              && r.value.departureCity == data["departure_city"]
              && r.value.arrivalCity == data["arrival_city"]
              && Some(r.value.departureDatetime) == FromIsoFormat(ReplaceZ(data["departure_datetime"]))
              && Some(r.value.arrivalDatetime) == FromIsoFormat(ReplaceZ(data["arrival_datetime"]))
  {
    var flightNumber :- Field(data, "flight_number");
    var departureCity :- Field(data, "departure_city");
    var arrivalCity :- Field(data, "arrival_city");
    var departureText :- Field(data, "departure_datetime");
    var departureDatetime :- ParseTimestamp(departureText);
    var arrivalText :- Field(data, "arrival_datetime");
    var arrivalDatetime :- ParseTimestamp(arrivalText);
    Success(FlightEvent(flightNumber, departureCity, arrivalCity, departureDatetime, arrivalDatetime))
  }

  /** A 'Z' suffix means UTC: the same civil time as the text without it, at
      offset zero. */
  lemma ZSuffixMeansUtc(text: string, dt: DateTime)
    requires 'Z' !in text && |text| > 10
    requires FromIsoFormat(text) == Some(dt) && dt.utcOffset.None?
    ensures ParseTimestamp(text + "Z") == Success(dt.(utcOffset := Some(0)))
  {
    ReplaceZSuffix(text);
    ReplaceZIdentity(text);
    AppendUtcOffset(text, dt);
  }

  /** One stray one-byte character before the 'Z', as in
      `2024-09-13T12:30:Z`, is accepted and ignored: the text decodes as if
      it were not there. */
  lemma StrayCharBeforeZ(text: string, x: char, dt: DateTime)
    requires 'Z' !in text && |text| > 10 && text[|text| - 1] != '\0'
    requires FromIsoFormat(text) == Some(dt) && dt.utcOffset.None?
    requires x != 'Z' && x != '+' && x != '-' && IsOneByte(x)
    ensures ParseTimestamp(text + [x] + "Z") == Success(dt.(utcOffset := Some(0)))
  {
    ReplaceZSuffix(text + [x]);
    ReplaceZIdentity(text + [x]);
    AppendStrayAndUtcOffset(text, x, dt);
  }

  /** A character of more than one byte there, as in `2024-09-13T12:30éZ`,
      makes the text invalid. */
  lemma WideCharBeforeZ(text: string, x: char, dt: DateTime)
    requires 'Z' !in text && |text| > 10
    requires FromIsoFormat(text) == Some(dt) && dt.utcOffset.None?
    requires !IsOneByte(x)
    ensures ParseTimestamp(text + [x] + "Z") == Failure(InvalidTimestamp(text + [x] + "Z"))
  {
    ReplaceZSuffix(text + [x]);
    ReplaceZIdentity(text + [x]);
    AppendWideAndUtcOffset(text, x, dt);
  }

  /** The `isoformat()` text of a naive time decodes to that time. */
  lemma NaiveTimestampRoundTrip(dt: DateTime)
    requires ValidDateTime(dt) && dt.utcOffset.None?
    ensures ParseTimestamp(IsoFormat(dt)) == Success(dt)
  {
    var date, clock := DateText(dt.date), ClockText(dt);
    assert 'Z' !in date && 'Z' !in clock;
    assert IsoFormat(dt) == date + "T" + clock;
    ReplaceZIdentity(IsoFormat(dt));
    IsoFormatRoundTrip(dt);
  }

  /** What the flight-events API writes for a UTC instant, `isoformat()`
      of the naive civil time followed by 'Z', decodes to that civil time at
      offset zero. */
  lemma UtcTimestampRoundTrip(dt: DateTime)
    requires ValidDateTime(dt) && dt.utcOffset.None?
    ensures ParseTimestamp(IsoFormat(dt) + "Z") == Success(dt.(utcOffset := Some(0)))
  {
    var date, clock := DateText(dt.date), ClockText(dt);
    assert 'Z' !in date && 'Z' !in clock;
    assert IsoFormat(dt) == date + "T" + clock;
    IsoFormatRoundTrip(dt);
    ZSuffixMeansUtc(IsoFormat(dt), dt);
  }

  /** The departure date is the date written at the head of the departure
      text, in that text's own offset (no conversion to UTC). */
  lemma DepartureDateAsWritten(data: RawEvent, e: FlightEvent)
    requires FromDict(data) == Success(e)
    ensures |ReplaceZ(data["departure_datetime"])| >= 10
    ensures ParseDate(ReplaceZ(data["departure_datetime"])[..10]) == Some(DepartureDate(e))
  {
  }

  /** The arrival date likewise, from the arrival text. */
  lemma ArrivalDateAsWritten(data: RawEvent, e: FlightEvent)
    requires FromDict(data) == Success(e)
    ensures |ReplaceZ(data["arrival_datetime"])| >= 10
    ensures ParseDate(ReplaceZ(data["arrival_datetime"])[..10]) == Some(ArrivalDate(e))
  {
  }
}
