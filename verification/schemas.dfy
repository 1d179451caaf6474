/** Response shapes of the backend, as the frontend receives them. */
module Schemas {
  import opened Wrappers

  /** One flight of an airport board (`AviationstackFlight`). The five
      string fields are required; the last three may be null. */
  datatype Flight = Flight(
    flightNumber: string,
    airline: string,
    status: string,
    origin: string,
    destination: string,
    scheduled: Option<string>,
    terminal: Option<string>,
    gate: Option<string>)

  /** The board of one airport (`AviationstackAirportResponse`). */
  datatype AirportResponse = AirportResponse(
    airport: string,
    departures: seq<Flight>,
    arrivals: seq<Flight>)
}
