/**
 * Editing the filter: the airline toggles, the reset button and the two
 * thumbs of the price-range slider. The dragged value (computed from the
 * touch location and the slider's width) is an input.
 */
module FilterEditing {
  import opened FlightFilters

  /** The airlines offered as toggles. */
  const Airlines: seq<string> := ["国航", "东航", "南航", "海航"]

  /** The bounds the price slider is created with, `0...10000`. */
  const SliderBounds: PriceRange := PriceRange(0.0, 10000.0)

  function Max(x: real, y: real): real { if x >= y then x else y }

  function Min(x: real, y: real): real { if x <= y then x else y }

  /** bounds.lower <= lower <= upper <= bounds.upper */
  predicate Within(bounds: PriceRange, range: PriceRange)
  {
    bounds.lower <= range.lower <= range.upper <= bounds.upper
  }

  /**
   * The range after the lower thumb is dragged to v: the lower end follows v,
   * stopped at the slider's lower bound and at the current upper end; the
   * upper end stays. The requires is the condition under which `a...b`
   * does not trap.
   */
  function DragLower(bounds: PriceRange, range: PriceRange, v: real): (r: PriceRange)
    requires bounds.lower <= range.upper
    ensures r.upper == range.upper
    ensures bounds.lower <= r.lower <= r.upper
    ensures bounds.lower <= v <= range.upper ==> r.lower == v
    ensures v < bounds.lower ==> r.lower == bounds.lower
    ensures v > range.upper ==> r.lower == range.upper
  {
    PriceRange(Max(bounds.lower, Min(v, range.upper)), range.upper)
  }

  /** The range after the upper thumb is dragged to v, symmetrically. */
  function DragUpper(bounds: PriceRange, range: PriceRange, v: real): (r: PriceRange)
    requires range.lower <= bounds.upper
    ensures r.lower == range.lower
    ensures r.lower <= r.upper <= bounds.upper
    ensures range.lower <= v <= bounds.upper ==> r.upper == v
    ensures v > bounds.upper ==> r.upper == bounds.upper
    ensures v < range.lower ==> r.upper == range.lower
  {
    PriceRange(range.lower, Min(bounds.upper, Max(v, range.lower)))
  }

  /** A drag of either thumb keeps a range that lies within the bounds within them. */
  lemma DragKeepsWithin(bounds: PriceRange, range: PriceRange, v: real)
    requires Within(bounds, range)
    ensures Within(bounds, DragLower(bounds, range, v))
    ensures Within(bounds, DragUpper(bounds, range, v))
  {
  }

  /** The filter sheet, editing the filter it is bound to. */
  class FilterEditor {
    var filter: FlightFilter

    ghost predicate Valid()
      reads this
    {
      Within(SliderBounds, filter.priceRange)
    }

    constructor (initial: FlightFilter)
      requires Within(SliderBounds, initial.priceRange)
      ensures Valid() && filter == initial
    {
      filter := initial;
    }

    /** An airline's toggle reads as on when the airline is in the filter's set. */
    function IsOn(airline: string): bool
      reads this
    {
      airline in filter.airlines
    }

    /** Switching a toggle on inserts its airline, switching it off removes it. */
    method SetAirline(airline: string, isSelected: bool)
      requires Valid() && airline in Airlines
      modifies this
      ensures Valid()
      ensures filter == old(filter).(airlines := if isSelected then old(filter.airlines) + {airline}
                                                 else old(filter.airlines) - {airline})
      ensures IsOn(airline) == isSelected
      ensures forall a :: a != airline ==> IsOn(a) == old(IsOn(a))
    {
      if isSelected {
        filter := filter.(airlines := filter.airlines + {airline});
      } else {
        filter := filter.(airlines := filter.airlines - {airline});
      }
    }

    /** The reset button: back to `FlightFilter()`. */
    method Reset()
      modifies this
      ensures Valid() && filter == DefaultFilter()
    {
      filter := DefaultFilter();
    }

    method DragLowerThumb(v: real)
      requires Valid()
      modifies this
      ensures Valid()
      ensures filter == old(filter).(priceRange := DragLower(SliderBounds, old(filter.priceRange), v))
    {
      filter := filter.(priceRange := DragLower(SliderBounds, filter.priceRange, v));
    }

    method DragUpperThumb(v: real)
      requires Valid()
      modifies this
      ensures Valid()
      ensures filter == old(filter).(priceRange := DragUpper(SliderBounds, old(filter.priceRange), v))
    {
      filter := filter.(priceRange := DragUpper(SliderBounds, filter.priceRange, v));
    }
  }
}
