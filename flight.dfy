/** The flight record every view shows. */
module Flights {

  /** An immutable flight offer; `price` is a currency sign followed by the amount. */
  datatype Flight = Flight(
    departure: string,
    arrival: string,
    departureCity: string,
    arrivalCity: string,
    departureTime: string,
    arrivalTime: string,
    duration: string,
    transfers: string,
    price: string,
    airline: string,
    isInternational: bool)
}
