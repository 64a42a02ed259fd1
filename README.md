# Flight journeys: a verified model of the journey builder

This project models the core of a flight-search service. The service fetches
scheduled flight legs ("flight events") from an upstream API, decodes each raw
JSON object into a `FlightEventDTO`, and answers a search (date, origin,
destination) with every journey it can build. A journey is either one direct
leg or two legs joined by a stopover. Each journey is then rendered as a
response whose times are written `YYYY-MM-DD HH:MM`.

The model follows the Python code module by module:

- `wrappers.dfy`, `digits.dfy`, `date_times.dfy`: the parts of Python's
  `datetime` that the service relies on. `DateTimes.FromIsoFormat` is
  `datetime.fromisoformat` as of Python 3.7 to 3.10, for the forms
  `isoformat()` writes, including two quirks of those versions, which read
  the time part as UTF-8 bytes: one stray one-byte character (code below 128)
  between the clock time and an offset is ignored, and so is a NUL right
  after a clock time that has no offset. `DateTimes.IsoFormat` is
  `isoformat()`. `DateTimes.Instant` is the instant a value denotes: the day
  ordinal in seconds, plus the clock time, minus the UTC offset.
- `flight_event_dto.dfy`: `FlightEventDTO`, its two date properties and
  `from_dict`, including the replacement of 'Z' by "+00:00".
- `flight_filter_dto.dfy`, `strategy_base.dfy`: the search filter, the journey
  record `{"connections", "path"}`, and the two configured bounds with their
  defaults of 24 and 4 hours.
- `flight_commons.dfy`: `is_within_max_duration` and its one-leg variant.
- `direct_flights.dfy`: the direct-flights strategy, a list comprehension
  modelled as a function.
- `one_stop.dfy`: the one-stop strategy. Its nested loops and
  `find_next_stopovers` are methods with loops, proved against specification
  functions.
- `journey_service.dfy`: `get_flight_events` and `build_journeys`.
  `build_journeys` is a method whose loop runs the installed strategies in
  order.
- `journey_response.dfy`: `FlightItem.from_dto` and `JourneyResponse.from_dto`.
- `scenarios.dfy`: the inputs of the repository's unit tests, evaluated in
  the model by proof, with the outcomes those tests expect.
- `service_scenario.dfy`: the twelve-event feed of the service test, decoded
  from its raw objects and run through both strategies.

Hours are compared as whole seconds: `seconds / 3600 <= h` is written
`seconds <= h * 3600`, which is the same test for integer `h`. The adapter's
HTTP call is a parameter, `fetched: Option<seq<RawEvent>>`. It is `None` when
the adapter gave up, and otherwise holds the JSON list it returned. The
configured bounds are a `Config` parameter, with `DefaultConfig` holding the
defaults.

### How source defects are resolved

As written, the core does not import or run. The model takes the evidently
intended reading in each case:

- `direct_flights.py:19` and `one_stop.py:25` read
  `ConfigVars.MAX_JOURNEY_HOURS`, but `config_vars.py:9` defines
  `MAX_JOURNEY_DURATION_HOURS`. The model uses the defined setting,
  `Config.maxJourneyHours`, whose default is 24.
- `direct_flights.py:18` compares with `flight_filter.date_only`, but
  `FlightFilterDTO` only has `date`. The model compares with `date`.
- `direct_flights.py:5` imports `is_within_max_duration_1_event`, which
  `flight_commons.py` does not define. The model defines it as
  `is_within_max_duration` on the one-leg list, and false without a leg.
- `flight_commons.py:2` and `journey_service.py:5` import from
  `app.dtos.fligth_event_dto`, a misspelt module. The model uses the
  `FlightEventDTO` of `flight_event_dto.py`.

The code is followed where it differs from what a reader of the tests would
expect:

- The one-stop strategy never checks that the first leg leaves from the
  search's origin or on its date (`one_stop.py:15-19`). A journey may
  therefore start anywhere, on any day (`Scenarios.FirstLegOriginUnchecked`).
  Only direct journeys are known to leave from the origin on the date
  (`JourneyService.AllJourneysMember`).
- `build_journeys` neither catches errors nor sorts. An empty or missing feed
  ends the call with the "no flight events" error rather than an empty list,
  so the model returns a `Failure`. The test at
  `tests/services/test_journey_service.py:183-198` expects `[]` and an error
  report instead, from a `report_error` call that this `journey_service.py`
  does not contain. Journeys come back direct ones first, each strategy in
  its own order (`JourneyService.DirectJourneysFirst`), not sorted.
- `MIN_LAYOVER_HOURS` (`config_vars.py:11`) is defined but never read. Any
  layover longer than zero seconds and at most `MAX_LAYOVER_HOURS` is
  accepted.

## Model

| member | source | states |
|---|---|---|
| FlightEventDto.FromDict | app/dtos/flight_event_dto.py:27-39 | Decoding succeeds exactly when all five keys are present and both timestamps, with 'Z' replaced, are accepted by `fromisoformat`. The three text fields are then copied unchanged, and each datetime is what `fromisoformat` reads from its text. |
| FlightEventDto.ReplaceZ | app/dtos/flight_event_dto.py:34 | No 'Z' is left after the replacement, and the text never gets shorter. |
| FlightEventDto.ReplaceZIdentity | app/dtos/flight_event_dto.py:34 | Text without a 'Z' passes through unchanged. |
| FlightEventDto.ReplaceZSuffix | app/dtos/flight_event_dto.py:34 | A trailing 'Z' becomes the UTC offset "+00:00". |
| FlightEventDto.ZSuffixMeansUtc | app/dtos/flight_event_dto.py:33-38 | A naive timestamp followed by 'Z' decodes to the same civil time at offset zero. |
| FlightEventDto.UtcTimestampRoundTrip | app/dtos/flight_event_dto.py:33-38 | For every valid naive datetime, its `isoformat()` text plus 'Z' decodes back to it at offset zero. |
| FlightEventDto.StrayCharBeforeZ | app/dtos/flight_event_dto.py:33-38 | A text such as `2024-09-13T12:30:Z` decodes: a one-byte character before the 'Z' is ignored, and the time is read at offset zero. |
| FlightEventDto.WideCharBeforeZ | app/dtos/flight_event_dto.py:33-38 | A text such as `2024-09-13T12:30éZ`, with a character of more than one byte before the 'Z', fails, naming the text. |
| FlightEventDto.NaiveTimestampRoundTrip | app/dtos/flight_event_dto.py:33-38 | The `isoformat()` text of every valid naive datetime decodes back to it. |
| FlightEventDto.ParseTimestamp | app/dtos/flight_event_dto.py:33-38 | Succeeds exactly when `fromisoformat` accepts the text with 'Z' replaced, and then gives the valid datetime it reads. Otherwise it fails, naming the text. |
| FlightEventDto.DepartureDate | app/dtos/flight_event_dto.py:19-21 | For a valid departure time, the date is a valid date, and the departure read on its own offset's clock falls within that day. |
| FlightEventDto.ArrivalDate | app/dtos/flight_event_dto.py:23-25 | Likewise for the arrival time. |
| FlightEventDto.DepartureDateAsWritten | app/dtos/flight_event_dto.py:19-21 | `departure_date` is the date at the head of the departure text, in that text's own offset, with no conversion to UTC. |
| FlightEventDto.ArrivalDateAsWritten | app/dtos/flight_event_dto.py:23-25 | `arrival_date` is likewise the date at the head of the arrival text. |
| DateTimes.FromIsoFormat | app/dtos/flight_event_dto.py:33-38 | Every accepted text gives a valid calendar date and clock time, and the date is the one written in its first ten characters. |
| DateTimes.IsoFormatRoundTrip | app/dtos/flight_event_dto.py:33-38 | `fromisoformat` reads back exactly what `isoformat()` writes, for every valid datetime, with or without an offset. |
| DateTimes.AppendUtcOffset | app/dtos/flight_event_dto.py:34-35 | Appending "+00:00" to an accepted naive timestamp gives the same civil time at offset zero. |
| DateTimes.StrayCharBeforeOffset | app/dtos/flight_event_dto.py:33-38 | Before an offset, one extra one-byte character that is not a sign is ignored: a clock time, that character and the offset read as the clock time and the offset alone. |
| DateTimes.WideCharBeforeOffset | app/dtos/flight_event_dto.py:33-38 | A character of more than one byte between a time without an offset and an offset makes the time part invalid. |
| DateTimes.NulAfterClock | app/dtos/flight_event_dto.py:33-38 | A clock time followed by a NUL and no offset reads as the clock time alone. |
| DateTimes.OtherCharAfterTime | app/dtos/flight_event_dto.py:33-38 | Any character other than NUL after a time without an offset, a lone sign included, makes the time part invalid. |
| DateTimes.AppendStrayAndUtcOffset | app/dtos/flight_event_dto.py:34-35 | An accepted naive timestamp not ending in NUL, followed by one stray one-byte non-sign character and "+00:00", gives the same civil time at offset zero. |
| DateTimes.AppendWideAndUtcOffset | app/dtos/flight_event_dto.py:34-35 | An accepted naive timestamp followed by a character of more than one byte and "+00:00" is refused. |
| DateTimes.AppendNul | app/dtos/flight_event_dto.py:33-38 | An accepted naive timestamp not ending in NUL, followed by a NUL, gives the same value. |
| DateTimes.Instant | app/utils/flight_commons.py:11 | For a valid clock time, the instant plus the UTC offset lies within the written date's day: subtracting two instants gives the elapsed seconds, offsets taken into account. |
| DateTimes.OrdinalNextDay | app/utils/flight_commons.py:11 | Across every month and year end, the next calendar day is one day later in the instant arithmetic that durations use, leap years included. |
| FlightCommons.IsWithinMaxDuration | app/utils/flight_commons.py:5-13 | True exactly when the list is non-empty and the last arrival is at most `h` hours after the first departure, both as instants. |
| FlightCommons.IsWithinMaxDurationOneEvent | app/core/strategies/direct_flights.py:5 | True exactly when there is a leg and its arrival is at most `h` hours after its departure. |
| FlightCommons.EmptyIsNotWithin | app/utils/flight_commons.py:6-7 | An empty list of legs is never within the bound. |
| FlightCommons.OnlyEndpointsCount | app/utils/flight_commons.py:8-13 | Only the first departure and the last arrival count. A non-empty list is within `h` hours exactly when its last arrival is at most `h` hours after its first departure. |
| FlightCommons.WithinIsMonotone | app/utils/flight_commons.py:11-13 | The bound is inclusive at exactly `h` hours. A list within `h` hours is within every larger bound. |
| FlightCommons.NonPositiveSpanIsWithin | app/utils/flight_commons.py:11-13 | An arrival at or before the departure passes any bound of zero hours or more. Nothing rejects time travel. |
| FlightCommons.OneEventIsOwnSpan | app/core/strategies/direct_flights.py:5 | The one-leg check is false without a leg. With a leg, it holds exactly when that leg's own arrival is at most `h` hours after its departure. |
| DirectFlights.Execute | app/core/strategies/direct_flights.py:13-20 | The result is never longer than the input. Every journey has zero connections and a one-leg path whose leg is in the input. |
| DirectFlights.ExecuteMember | app/core/strategies/direct_flights.py:13-20 | A journey is returned exactly when it is `{0, [f]}` for an input leg `f` from the origin to the destination, leaving on the search date, that lasts at most the maximum journey hours. |
| DirectFlights.ExecuteAppend | app/core/strategies/direct_flights.py:13-15 | The comprehension keeps input order: the result for `xs + ys` is the result for `xs` followed by the result for `ys`. |
| DirectFlights.ExecuteSingle | app/core/strategies/direct_flights.py:13-20 | A single leg gives one journey if it passes all four tests, and none otherwise. |
| OneStop.Stopovers | app/core/strategies/one_stop.py:38-51 | The specification of `find_next_stopovers`: the kept legs in input order, never more than the input. |
| OneStop.FindNextStopovers | app/core/strategies/one_stop.py:32-51 | The loop's `valid_connections` equals the kept legs of the input, in input order. |
| OneStop.StopoversMember | app/core/strategies/one_stop.py:39-50 | A leg is kept exactly when it is in the input and leaves from the first leg's arrival city for the destination. It must leave strictly after the first leg lands and at most the maximum layover later. The `0 <` test adds nothing to the strict time test. |
| OneStop.StopoversAppend | app/core/strategies/one_stop.py:39-51 | The scan distributes over concatenation, so kept legs stay in input order. |
| OneStop.JourneysFor | app/core/strategies/one_stop.py:21-29 | The specification of the inner loop for one first leg: at most one journey per second leg. |
| OneStop.PairWithStopovers | app/core/strategies/one_stop.py:21-29 | The inner loop's appended journeys equal `JourneysFor` of the first leg and its stopovers. |
| OneStop.JourneysForMember | app/core/strategies/one_stop.py:22-29 | A journey is produced for a first leg exactly when it is `{1, [first, second]}`, with `second` among the stopovers and the whole trip within the maximum journey hours. |
| OneStop.Execute | app/core/strategies/one_stop.py:11-30 | The loop's `connections` equals `OneStopJourneys`: all legs taken as first legs, in input order. |
| OneStop.ConnectionsStep | app/core/strategies/one_stop.py:15-29 | One more first leg appends exactly that leg's journeys. |
| OneStop.ConnectionsMember | app/core/strategies/one_stop.py:15-29 | A pair is produced exactly when its first leg is among the first legs, its second leg is in the input, and the two form a valid connection (stopover and total-duration bounds). |
| OneStop.OneStopMember | app/core/strategies/one_stop.py:11-30 | The strategy returns `{1, [a, b]}` exactly when `a` and `b` are input legs and `b` validly connects `a` to the destination. Nothing about `a` is checked against the origin or the date. |
| OneStop.ConnectionsAppend | app/core/strategies/one_stop.py:14-30 | Output order is outer-loop order: the journeys of earlier first legs come first. |
| OneStop.ConnectionsSize | app/core/strategies/one_stop.py:14-30 | At most one journey per (first leg, second leg) pair: the result has at most `n * n` entries for `n` input legs. |
| OneStop.OnlyDestinationIsRead | app/core/strategies/one_stop.py:17-19 | Of the filter, only the destination affects the result. |
| JourneyService.DecodeAll | app/services/journey_service.py:21 | Decoding every raw event succeeds exactly when each one decodes, and the results are then in order and of equal length. On failure, the error is that of the first raw event that fails. |
| JourneyService.GetFlightEvents | app/services/journey_service.py:17-21 | A missing or empty feed gives the "no flight events" error. Otherwise the call succeeds exactly when every raw event decodes, and returns the decoded events in order. A decoding error names the cause found at some raw event. |
| JourneyService.ExecuteStrategy | app/services/journey_service.py:28-29 | Each strategy's `execute` returns that strategy's journeys. The one-stop one runs the loop method. |
| JourneyService.RunStrategies | app/services/journey_service.py:12-15 | Running the installed strategies in order gives the direct journeys followed by the one-stop journeys. |
| JourneyService.BuildJourneys | app/services/journey_service.py:23-31 | An error while getting the events leaves the call unchanged. Otherwise the result is every direct journey followed by every one-stop journey, each in its strategy's order. |
| JourneyService.AllJourneysMember | app/services/journey_service.py:23-31 | Every returned journey has one leg and no connection, or two legs and one connection. All its legs come from the feed, its last leg lands at the destination, and the whole trip is within the maximum journey hours. Only a direct journey is known to leave from the origin on the date. |
| JourneyService.DirectJourneysFirst | app/services/journey_service.py:12-15 | Along the result, the number of connections never decreases. |
| JourneyResponse.Strftime | app/api/v1/responses/journey_response.py:22-23 | The text is sixteen characters: the ten-character date as `isoformat` writes it, then a space, then the time. |
| JourneyResponse.ItemFromDto | app/api/v1/responses/journey_response.py:16-24 | The flight number and both cities are copied. Each time is sixteen characters, headed by that leg's departure or arrival date. |
| JourneyResponse.ResponseFromDto | app/api/v1/responses/journey_response.py:31-36 | The connection count is copied, and the path has one item per leg, in order, each the item of that leg. |
| JourneyResponse.StrftimeShape | app/api/v1/responses/journey_response.py:22-23 | A rendered time always has the shape `YYYY-MM-DD HH:MM`: sixteen characters, separators at fixed places, digits elsewhere. |
| JourneyResponse.StrftimeReadBack | app/api/v1/responses/journey_response.py:22-23 | A rendered time reads back as the same civil minute, naive, with zero seconds. The leg's UTC offset is not written. |
| JourneyResponse.ResponseDescribesJourney | app/api/v1/responses/journey_response.py:16-36 | The response copies the connection count and lists the same flights in order, with the same cities. Each time names that leg's civil minute. |
| Scenarios.OneDirectFlightMatch | tests/core/strategies/test_direct_flights.py:33-47 | One BUE-MAD leg of ten hours on the date gives one direct journey. |
| Scenarios.DirectVerdictsFirst | tests/core/strategies/test_direct_flights.py:91-112 | An 8-hour leg is kept, a 32-hour leg is dropped, and an exactly 24-hour leg is kept. |
| Scenarios.DirectVerdictsLast | tests/core/strategies/test_direct_flights.py:113-147 | Two wrong routes and the wrong date are dropped, and another 8-hour leg is kept. |
| Scenarios.KeepFirstThird | app/core/strategies/direct_flights.py:13-20 | Four legs of which only the first and third pass give exactly those two journeys, in order. |
| Scenarios.KeepFirstThirdSeventh | app/core/strategies/direct_flights.py:13-20 | Eight legs of which the first, third and seventh pass give exactly those three journeys, in order. |
| Scenarios.MultipleDirectFlights | tests/core/strategies/test_direct_flights.py:89-154 | The multiple-flights test gives exactly three direct journeys, in input order. |
| Scenarios.DirectStep | app/core/strategies/direct_flights.py:13-20 | One more leg is appended exactly when it passes. |
| Scenarios.OneStopOfPair | app/core/strategies/one_stop.py:11-30 | For two legs where only the second can follow the first, the result is one journey if the trip fits 24 hours, and none otherwise. |
| Scenarios.OneStopOfUnrelatedPair | app/core/strategies/one_stop.py:11-30 | For two legs where neither can follow the other, there is no journey. |
| Scenarios.OneStopOfFork | app/core/strategies/one_stop.py:11-30 | For three legs where the second and third can both follow the first and nothing follows them, the result is a journey through the second, then one through the third, each kept when the trip fits 24 hours. |
| Scenarios.MultipleValidJourneys | tests/core/strategies/test_one_stop.py:122-146 | F1 landing in MAD at 13:00, with F2 and F3 leaving for PMI at 14:00 and 15:30, gives two journeys, through F2 and then through F3. |
| Scenarios.ValidOneStopJourney | tests/core/strategies/test_one_stop.py:41-62 | BUE-MAD then MAD-PMI with a one-hour layover gives one journey with one connection, legs in travel order. |
| Scenarios.LongLayoverNoJourney | tests/core/strategies/test_one_stop.py:64-81 | A five-hour layover gives no journey. |
| Scenarios.TooLongJourneyDropped | tests/core/strategies/test_one_stop.py:83-100 | A trip of 28.5 hours gives no journey. |
| Scenarios.MissingConnection | tests/core/strategies/test_one_stop.py:102-120 | Without a leg on to PMI, there is no journey. |
| Scenarios.FirstLegOriginUnchecked | app/core/strategies/one_stop.py:15-19 | A NYC-MAD first leg two days after the search date still starts a journey of a BUE-PMI search. |
| Scenarios.DepartureBeforeLanding | tests/core/strategies/test_one_stop.py:191-202 | A flight leaving the connecting city an hour before the first leg lands is refused. |
| Scenarios.StopoverBounds | tests/core/strategies/test_one_stop.py:204-245 | Zero-minute and ten-hour layovers are refused. One-hour and two-hour layovers are kept, in order. |
| Scenarios.RenderYearEnd | app/api/v1/responses/journey_response.py:22 | 23:59:59 UTC on 31 December 2021 is written "2021-12-31 23:59". |
| Scenarios.RenderNewYear | app/api/v1/responses/journey_response.py:23 | Noon UTC on 1 January 2022 is written "2022-01-01 12:00". |
| Scenarios.RenderUtcLeg | app/api/v1/responses/journey_response.py:16-24 | A leg across the year end renders to the item with those two texts and its own number and cities. |
| Scenarios.MissingDepartureKey | app/dtos/flight_event_dto.py:33-35 | A raw event without `departure_datetime` is refused, naming that key. |
| Scenarios.EmptyFeed | app/services/journey_service.py:19-20 | An empty feed ends `build_journeys` with the "no flight events" error, not with an empty list. |
| ServiceScenario.ServiceDirectVerdicts | tests/services/test_journey_service.py:46-66 | Of the four BUE-MAD legs, the one leaving the day before and the one of 32 hours fail; the 8-hour ones on the date pass. |
| ServiceScenario.ServiceRouteVerdicts | tests/services/test_journey_service.py:67-124 | No other leg of the feed goes from BUE to MAD, so none is direct. |
| ServiceScenario.DirectSkipFour | app/core/strategies/direct_flights.py:13-20 | Four legs that do not pass add no journey. |
| ServiceScenario.KeepSecondThirdOfFour | app/core/strategies/direct_flights.py:13-20 | Four legs of which only the second and third pass give exactly those two journeys, in order. |
| ServiceScenario.KeepSecondThird | app/core/strategies/direct_flights.py:13-20 | Twelve legs of which only the second and third pass give exactly those two journeys, in order. |
| ServiceScenario.ServiceDirectJourneys | tests/services/test_journey_service.py:34-124 | The direct strategy keeps AR1001 and AR1002, in that order. |
| ServiceScenario.NoStopovers | app/core/strategies/one_stop.py:38-51 | When no candidate qualifies, `find_next_stopovers` keeps nothing. |
| ServiceScenario.NoConnectingLeg | app/core/strategies/one_stop.py:15-29 | A first leg from whose arrival city no leg departs starts no journey. |
| ServiceScenario.OnlyCandidate | app/core/strategies/one_stop.py:38-51 | When only one leg departs from the first leg's arrival city, the stopovers are that leg if it qualifies, and none otherwise. |
| ServiceScenario.OnlyConnectingLeg | app/core/strategies/one_stop.py:15-29 | With one candidate, the first leg starts the journey through it exactly when it is a stopover and the pair fits the maximum duration. |
| ServiceScenario.FlatMapStep | app/core/strategies/one_stop.py:14-30 | The outer loop appends each first leg's journeys after those of the legs before it. |
| ServiceScenario.FlatMapThirdOfFour | app/core/strategies/one_stop.py:14-30 | Of four more first legs, when only the third starts journeys, exactly those are appended. |
| ServiceScenario.FlatMapSeventhAndEleventh | app/core/strategies/one_stop.py:14-30 | Of twelve first legs, when only the seventh and eleventh start journeys, the result is theirs, in that order. |
| ServiceScenario.ArrivalsStartNothing | app/core/strategies/one_stop.py:15-29 | When no leg leaves the destination, no leg landing there starts a journey. |
| ServiceScenario.SeventhAndEleventh | app/core/strategies/one_stop.py:11-30 | Twelve first legs of which only the seventh and eleventh start a journey, each through the leg after it, give those two journeys. |
| ServiceScenario.NothingLeavesMad | tests/services/test_journey_service.py:34-124 | No leg of the feed departs from MAD. |
| ServiceScenario.ServiceDepartures | tests/services/test_journey_service.py:67-124 | GRU, JFK, SCL and ATL are each left by one leg only. |
| ServiceScenario.ServiceConnectionVerdicts | tests/services/test_journey_service.py:67-124 | The five-hour wait in GRU exceeds the layover bound. The JFK and ATL pairs are stopovers within 24 hours. The SCL pair is a stopover but takes 36.5 hours. |
| ServiceScenario.ServiceArrivalsAtMad | tests/services/test_journey_service.py:34-124 | The eight legs landing in MAD start no journey. |
| ServiceScenario.ServiceConnectingLegs | tests/services/test_journey_service.py:67-124 | Of the legs landing elsewhere, only AA3000 and LA5000 start a journey, each through the next leg. |
| ServiceScenario.ServiceOneStopJourneys | tests/services/test_journey_service.py:34-124 | The one-stop strategy returns AA3000 with AA3100, then LA5000 with LA5100. |
| ServiceScenario.ServiceJourneys | tests/services/test_journey_service.py:147-166 | Both strategies together give AR1001, AR1002, then the two one-stop journeys. |
| ServiceScenario.RawOf | tests/services/test_journey_service.py:10-23 | The raw object of a leg has exactly the five keys that `from_dict` reads. |
| ServiceScenario.RawOfRoundTrip | app/dtos/flight_event_dto.py:27-39 | A leg with valid naive times, written as its raw object, decodes back to the same leg. |
| ServiceScenario.FeedOf | tests/services/test_journey_service.py:45-124 | The feed has one raw object per leg, in order. |
| ServiceScenario.DecodeAllOf | app/services/journey_service.py:21 | When each raw value decodes to the value at its index, the whole list decodes to that list. |
| ServiceScenario.FeedRoundTrip | app/services/journey_service.py:17-21 | A non-empty feed of such raw objects is decoded back to the same legs, in order. |
| ServiceScenario.ServiceTimesValid | tests/services/test_journey_service.py:45-124 | Every time in the feed is a valid naive datetime. |
| ServiceScenario.BuildOnFeed | app/services/journey_service.py:23-31 | With the adapter returning a feed of legs, `build_journeys` returns what both strategies build on exactly those legs. |
| ServiceScenario.FourJourneysAsAsserted | tests/services/test_journey_service.py:153-166 | Four journeys of that shape are two of one leg with no connection, then two of two legs with one, all from the origin to the destination. |
| ServiceScenario.ServiceBuild | tests/services/test_journey_service.py:147-166 | `build_journeys` on the test's feed returns four journeys: two direct, then two with one connection, each leaving BUE and ending in MAD. |

## Left out

- The HTTP call of `FlightEventAdapter` and its timeout are not modelled. Its outcome is the `fetched` parameter. The service constructor's adapter instance is not modelled either.
- `async`/`await` is not modelled. Every coroutine is awaited at once, so the model runs sequentially.
- Reading the bounds from environment variables is not modelled. They are the `Config` parameter, with `DefaultConfig` holding the defaults 24 and 4.
- Logging and the FastAPI endpoint are not modelled. Neither is the pydantic model machinery (validation, the `from` alias, `model_config`).
- Hours are compared as whole seconds. Python divides seconds by 3600 in floating point. That is the same test for integer bounds, and floating-point rounding is not modelled.
- `FlightEventDto.FromDict`: a missing text key (`flight_number`, `departure_city`, `arrival_city`) fails with `MissingKey`. Python's `data.get` stores `None` there instead. A missing timestamp key fails in both, as Python raises on `None.replace`. JSON values other than strings are not modelled.
- `DateTimes.FromIsoFormat`: fractional seconds are not parsed. Neither are the forms added in Python 3.11 (week dates, basic format, a 'Z' accepted directly). Text is a sequence of Unicode characters. Python's UTF-8 bytes are modelled only where they change the outcome, by whether a character takes one byte (code below 128) or more.
- Comparing or subtracting a naive datetime and an aware one raises `TypeError` in Python. The model gives both an instant, treating a naive time as UTC.
- `strftime` of years below 1000 is not modelled. The model zero-pads to four digits, which not every platform's C library does.
- Feeds that are not lists, such as a JSON object or a number, are not modelled. Neither is validation of airport codes, which the code does not do either.
- `MIN_LAYOVER_HOURS` is not modelled, because the code never reads it.
- The text of the exception `get_flight_events` raises is not modelled. The error value `JourneyService.NoFlightEvents` stands for it.
- `OneStop.Execute`: the inner `for second_leg` loop is the separate method `OneStop.PairWithStopovers`, with the same statements in the same order.
