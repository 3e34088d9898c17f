/** The search form's state: the chosen airports, the travel date and the listed flights. */
module BookingSearch {
  import opened Flights

  class FlightBookingViewModel {
    var fromAirport: string
    var toAirport: string
    var fromCity: string
    var toCity: string
    /** `Date()` at creation; the clock is a parameter of the constructor. */
    var selectedDate: int
    var flights: seq<Flight>

    /** The defaults: Paris CDG to New York JFK, and the two sample flights out of CDG. */
    constructor (now: int)
      ensures fromAirport == "CDG" && toAirport == "JFK"
      ensures fromCity == "巴黎, 法国" && toCity == "纽约, 美国"
      ensures selectedDate == now
      ensures |flights| == 2
      ensures forall f :: f in flights ==> f.departure == "CDG" && f.departureCity == fromCity
      ensures flights[0].arrival == "DUB" && flights[1].arrival == "JFK"
    {
      fromAirport, toAirport := "CDG", "JFK";
      fromCity, toCity := "巴黎, 法国", "纽约, 美国";
      selectedDate := now;
      flights := [
        Flight("CDG", "DUB", "巴黎, 法国", "都柏林, 爱尔兰", "02:00 AM", "06:00 AM",
               "12 hr", "1 transfer", "$120.00", "airTran", false),
        Flight("CDG", "JFK", "巴黎, 法国", "纽约, 美国", "02:00 AM", "10:00 AM",
               "8 hr", "no transfers", "$120.00", "AIRBUS", false)
      ];
    }

    /** Searching is a placeholder: it changes nothing. */
    method SearchFlights()
      ensures unchanged(this)
    {
    }

    /** Exchange origin and destination, airport and city together. */
    method SwapAirports()
      modifies this
      ensures fromAirport == old(toAirport) && fromCity == old(toCity)
      ensures toAirport == old(fromAirport) && toCity == old(fromCity)
      ensures selectedDate == old(selectedDate) && flights == old(flights)
    {
      var tempAirport := fromAirport;
      var tempCity := fromCity;

      fromAirport := toAirport;
      fromCity := toCity;

      toAirport := tempAirport;
      toCity := tempCity;
    }
  }

  /** Swapping twice puts every field back. */
  method SwapTwiceRestores(vm: FlightBookingViewModel)
    modifies vm
    ensures vm.fromAirport == old(vm.fromAirport) && vm.fromCity == old(vm.fromCity)
    ensures vm.toAirport == old(vm.toAirport) && vm.toCity == old(vm.toCity)
    ensures vm.selectedDate == old(vm.selectedDate) && vm.flights == old(vm.flights)
  {
    vm.SwapAirports();
    vm.SwapAirports();
  }
}
