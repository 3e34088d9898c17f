/** The result filter's value type and its defaults. */
module FlightFilters {

  datatype CabinClass = Economy | Business | First

  /** `CabinClass.allCases`, in declaration order. */
  const CabinClasses: seq<CabinClass> := [Economy, Business, First]

  /** The raw value each cabin class is displayed with. */
  function RawValue(c: CabinClass): string
  {
    match c
    case Economy => "经济舱"
    case Business => "商务舱"
    case First => "头等舱"
  }

  /** A closed price range `lower...upper`. */
  datatype PriceRange = PriceRange(lower: real, upper: real)

  /** The filter, without its two departure/arrival time-of-day ranges. */
  datatype FlightFilter = FlightFilter(
    priceRange: PriceRange,
    airlines: set<string>,
    cabinClass: CabinClass,
    directFlightsOnly: bool)

  /** `FlightFilter()`: prices 0...10000, no airline restriction, economy, direct-only off. */
  function DefaultFilter(): (f: FlightFilter)
    ensures f.priceRange == PriceRange(0.0, 10000.0)
    ensures f.airlines == {}
    ensures f.cabinClass == Economy
    ensures !f.directFlightsOnly
  {
    FlightFilter(PriceRange(0.0, 10000.0), {}, Economy, false)
  }

  /** `allCases` lists every cabin class exactly once, each under its own raw value. */
  lemma CabinClassesComplete()
    ensures |CabinClasses| == 3
    ensures forall c: CabinClass :: c in CabinClasses
    ensures forall i, j :: 0 <= i < j < |CabinClasses| ==> CabinClasses[i] != CabinClasses[j]
    ensures forall c, d: CabinClass :: RawValue(c) == RawValue(d) ==> c == d
  {
    forall c: CabinClass ensures c in CabinClasses {
      match c
      case Economy => assert CabinClasses[0] == c;
      case Business => assert CabinClasses[1] == c;
      case First => assert CabinClasses[2] == c;
    }
    assert RawValue(Economy)[0] != RawValue(Business)[0];
    assert RawValue(Economy)[0] != RawValue(First)[0];
    assert RawValue(Business)[0] != RawValue(First)[0];
  }
}
