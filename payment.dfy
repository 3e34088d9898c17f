/** The payment screen's order total. */
module Payment {
  import opened Flights
  import opened Wrappers
  import opened Prices
  import opened Text

  /**
   * The amount behind `totalAmount`: the outbound fare, plus the return
   * fare on a round trip. A missing return flight reads as the string "0".
   */
  function TotalValue(flight: Flight, isRoundTrip: bool, returnFlight: Option<Flight>): (total: nat)
  {
    var outboundPrice := FareValue(flight.price);
    var returnPrice :=
      if isRoundTrip then
        match ParseAmount(match returnFlight case Some(f) => DropFirst(f.price) case None => "0")
        case Some(v) => v
        case None => 0
      else 0;
    outboundPrice + returnPrice
  }

  /** `totalAmount`: "¥" followed by the integer total. */
  function TotalAmount(flight: Flight, isRoundTrip: bool, returnFlight: Option<Flight>): (s: string)
    ensures |s| >= 2 && s[0] == '¥'
    ensures FareValue(s) == TotalValue(flight, isRoundTrip, returnFlight)
  {
    YuanRoundTrip(TotalValue(flight, isRoundTrip, returnFlight));
    Yuan(TotalValue(flight, isRoundTrip, returnFlight))
  }

  /** One way: the outbound fare alone, even when a return flight is passed. */
  lemma OneWayTotal(flight: Flight, returnFlight: Option<Flight>)
    ensures TotalValue(flight, false, returnFlight) == FareValue(flight.price)
  {
  }

  /** Round trip without a return flight: the return part adds nothing. */
  lemma RoundTripWithoutReturn(flight: Flight)
    ensures TotalValue(flight, true, None) == FareValue(flight.price)
  {
    assert "0" == NatToString(0);
    NatToStringRoundTrip(0);
  }

  /** Round trip with a return flight: the sum of both fares, each 0 when unreadable. */
  lemma RoundTripTotal(flight: Flight, back: Flight)
    ensures TotalValue(flight, true, Some(back)) == FareValue(flight.price) + FareValue(back.price)
  {
  }

  /** Two "¥<digits>" fares add up as numbers. */
  lemma RoundTripOfFormattedFares(out: nat, back: nat, flight: Flight, returnFlight: Flight)
    requires flight.price == Yuan(out) && returnFlight.price == Yuan(back)
    ensures TotalAmount(flight, true, Some(returnFlight)) == Yuan(out + back)
  {
    YuanRoundTrip(out);
    YuanRoundTrip(back);
  }
}
