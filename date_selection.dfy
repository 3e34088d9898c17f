/** The date picker's price hint for the chosen day of the week. */
module DateSelection {
  import opened Prices

  /** The `(lowest:, normal:)` pair of price strings. */
  datatype DayPrice = DayPrice(lowest: string, normal: string)

  /**
   * `getPriceForDate`, with the calendar weekday (1 = Sunday ... 7 = Saturday)
   * given directly: the day's lowest fare and the usual fare shown struck through.
   */
  function PriceForWeekday(weekday: int): (p: DayPrice)
  {
    if weekday == 1 || weekday == 7 then DayPrice("¥1580", "¥1880")
    else if weekday == 6 then DayPrice("¥1480", "¥1780")
    else DayPrice("¥1280", "¥1580")
  }

  lemma WeekendFares(weekday: int)
    requires weekday == 1 || weekday == 7
    ensures FareValue(PriceForWeekday(weekday).lowest) == 1580
    ensures FareValue(PriceForWeekday(weekday).normal) == 1880
  {
    FourDigitFare("¥1580");
    FourDigitFare("¥1880");
  }

  lemma FridayFares()
    ensures FareValue(PriceForWeekday(6).lowest) == 1480
    ensures FareValue(PriceForWeekday(6).normal) == 1780
  {
    FourDigitFare("¥1480");
    FourDigitFare("¥1780");
  }

  lemma WorkdayFares(weekday: int)
    requires weekday != 1 && weekday != 6 && weekday != 7
    ensures FareValue(PriceForWeekday(weekday).lowest) == 1280
    ensures FareValue(PriceForWeekday(weekday).normal) == 1580
  {
    FourDigitFare("¥1280");
    FourDigitFare("¥1580");
  }

  /**
   * On every day the lowest fare is 300 below the usual fare, and the
   * weekend's lowest fare is above any other day's.
   */
  lemma FareOrdering(weekday: int, other: int)
    requires other != 1 && other != 7
    ensures FareValue(PriceForWeekday(weekday).lowest) + 300 == FareValue(PriceForWeekday(weekday).normal)
    ensures weekday == 1 || weekday == 7 ==>
              FareValue(PriceForWeekday(weekday).lowest) > FareValue(PriceForWeekday(other).lowest)
  {
    if weekday == 1 || weekday == 7 { WeekendFares(weekday); }
    else if weekday == 6 { FridayFares(); }
    else { WorkdayFares(weekday); }
    if other == 6 { FridayFares(); } else { WorkdayFares(other); }
  }
}
