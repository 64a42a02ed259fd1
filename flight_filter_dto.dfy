/** The search criteria of one request (`FlightFilterDTO`). */
module FlightFilterDto {
  import opened DateTimes

  datatype FlightFilter = FlightFilter(date: Date, origin: string, destination: string)
}
