/**
 * The flight detail sheet and the booking form it opens: the price
 * calendar, the cabin price table, the order total with add-on services,
 * and the passenger form's validity flag that enables payment.
 */
module FlightDetail {
  import opened Flights
  import opened BookingTypes
  import opened Prices
  import opened Wrappers
  import Seqs
  import DateSelection
  import Payment

  /** `PriceCalendarView.getPrice`, with the calendar weekday (1 = Sunday ... 7 = Saturday) given directly. */
  function CalendarPrice(weekday: int): (price: nat)
  {
    if weekday == 1 || weekday == 7 then 1580 else 1280
  }

  /** The calendar shows the date picker's lowest fare on every day but Friday. */
  lemma CalendarAgreesWithDatePicker(weekday: int)
    requires weekday != 6
    ensures CalendarPrice(weekday) == FareValue(DateSelection.PriceForWeekday(weekday).lowest)
  {
    if weekday == 1 || weekday == 7 {
      DateSelection.WeekendFares(weekday);
    } else {
      DateSelection.WorkdayFares(weekday);
    }
  }

  /** On Friday the two tables differ: the calendar shows 1280, the date picker 1480. */
  lemma CalendarDiffersOnFriday()
    ensures CalendarPrice(6) == 1280
    ensures FareValue(DateSelection.PriceForWeekday(6).lowest) == 1480
  {
    DateSelection.FridayFares();
  }

  /** `CabinSelectionView.getCabinPrice`. */
  function CabinPrice(cabin: SeatClass): (price: nat)
  {
    match cabin
    case Economy => 1280
    case Business => 3880
    case First => 6880
  }

  /** Cabin prices rise strictly with the class, in `allCases` order. */
  lemma CabinPricesIncrease()
    ensures forall i, j :: 0 <= i < j < |SeatClasses| ==> CabinPrice(SeatClasses[i]) < CabinPrice(SeatClasses[j])
    ensures CabinPrice(Economy) == 1280 && CabinPrice(Business) == 3880 && CabinPrice(First) == 6880
  {
  }

  predicate IsSelected(s: AdditionalService) { s.isSelected }

  /** `reduce(0) { $0 + $1.price }`. */
  function SumPrices(services: seq<AdditionalService>): (total: nat)
  {
    if services == [] then 0 else services[0].price + SumPrices(services[1..])
  }

  /** `BookingView.totalPrice`: the base fare plus the prices of the selected services. */
  function TotalPrice(flight: Flight, services: seq<AdditionalService>): (total: nat)
  {
    FareValue(flight.price) + SumPrices(Seqs.Filter(services, IsSelected))
  }

  /** The selected services' prices, one service at a time. */
  lemma SelectedSumUnfold(services: seq<AdditionalService>)
    requires services != []
    ensures SumPrices(Seqs.Filter(services, IsSelected))
            == (if services[0].isSelected then services[0].price else 0) + SumPrices(Seqs.Filter(services[1..], IsSelected))
  {
    var rest := Seqs.Filter(services[1..], IsSelected);
    if services[0].isSelected {
      assert Seqs.Filter(services, IsSelected) == [services[0]] + rest;
      assert ([services[0]] + rest)[1..] == rest;
    }
  }

  /** With no service selected the total is the base fare. */
  lemma {:induction false} NothingSelectedTotal(flight: Flight, services: seq<AdditionalService>)
    requires forall i :: 0 <= i < |services| ==> !services[i].isSelected
    ensures TotalPrice(flight, services) == FareValue(flight.price)
  {
    if services != [] {
      SelectedSumUnfold(services);
      NothingSelectedTotal(flight, services[1..]);
    }
  }

  /** The services' initial state: the total starts at the base fare. */
  lemma InitialTotal(flight: Flight)
    ensures TotalPrice(flight, Services) == FareValue(flight.price)
  {
    NothingSelectedTotal(flight, Services);
  }

  /** Switching one service on or off changes the total by exactly that service's price. */
  lemma {:induction false} ToggleChangesTotal(flight: Flight, services: seq<AdditionalService>, i: nat, on: bool)
    requires i < |services|
    ensures var after := services[i := services[i].(isSelected := on)];
            TotalPrice(flight, after) + (if services[i].isSelected then services[i].price else 0)
            == TotalPrice(flight, services) + (if on then services[i].price else 0)
  {
    var after := services[i := services[i].(isSelected := on)];
    SelectedSumUnfold(services);
    SelectedSumUnfold(after);
    if i > 0 {
      assert after[1..] == services[1..][i - 1 := services[i].(isSelected := on)];
      ToggleChangesTotal(flight, services[1..], i - 1, on);
    } else {
      assert after[1..] == services[1..];
    }
  }

  /** The form's fields are filled in: a name, an ID number and an 11-character phone number. */
  predicate FormValid(p: Passenger)
  {
    p.name != [] && p.idNumber != [] && |p.phoneNumber| == 11
  }

  /** The passenger the form starts with. */
  const BlankPassenger: Passenger := Passenger("", IdCard, "", "", Adult)

  /** The booking form's state. */
  class BookingForm {
    const flight: Flight
    var passenger: Passenger
    var services: seq<AdditionalService>
    var isValid: bool
    var showingPayment: bool

    /** The validity flag always reflects the passenger shown. */
    ghost predicate Valid()
      reads this
    {
      isValid == FormValid(passenger)
    }

    constructor (flight: Flight)
      ensures Valid()
      ensures this.flight == flight && passenger == BlankPassenger && services == Services
      ensures !isValid && !showingPayment
    {
      this.flight := flight;
      passenger := BlankPassenger;
      services := Services;
      isValid := false;
      showingPayment := false;
    }

    /** `validateForm`. */
    method ValidateForm()
      modifies this
      ensures isValid == FormValid(passenger)
      ensures passenger == old(passenger) && services == old(services) && showingPayment == old(showingPayment)
    {
      isValid := FormValid(passenger);
    }

    /** An edit of the passenger fields; a change triggers `validateForm`. */
    method EditPassenger(p: Passenger)
      requires Valid()
      modifies this
      ensures Valid()
      ensures passenger == p && isValid == FormValid(p)
      ensures services == old(services) && showingPayment == old(showingPayment)
    {
      var changed := p != passenger;
      passenger := p;
      if changed {
        ValidateForm();
      }
    }

    /** An add-on service's toggle. */
    method SetService(i: nat, on: bool)
      requires i < |services|
      modifies this
      ensures services == old(services)[i := old(services)[i].(isSelected := on)]
      ensures TotalPrice(flight, services) + (if old(services)[i].isSelected then old(services)[i].price else 0)
              == TotalPrice(flight, old(services)) + (if on then old(services)[i].price else 0)
      ensures passenger == old(passenger) && isValid == old(isValid) && showingPayment == old(showingPayment)
    {
      ToggleChangesTotal(flight, services, i, on);
      services := services[i := services[i].(isSelected := on)];
    }

    /** The pay button: disabled, and so without effect, while the form is not valid. */
    method ConfirmPayment()
      modifies this
      ensures showingPayment == (old(showingPayment) || isValid)
      ensures passenger == old(passenger) && services == old(services) && isValid == old(isValid)
    {
      if isValid {
        showingPayment := true;
      }
    }

    /** `"¥\(Int(totalPrice))"`: the total on the pay button and in the price breakdown. */
    function ButtonAmount(): (s: string)
      reads this
      ensures |s| >= 2 && s[0] == '¥'
      ensures FareValue(s) == TotalPrice(flight, services)
    {
      YuanRoundTrip(TotalPrice(flight, services));
      Yuan(TotalPrice(flight, services))
    }

    /**
     * The payment sheet opened as evidently intended: given the booked fare
     * with its services, it charges what the pay button shows.
     */
    function ChargedAmount(): (s: string)
      reads this
      ensures s == ButtonAmount()
      ensures FareValue(s) == TotalPrice(flight, services)
    {
      var booked := flight.(price := ButtonAmount());
      Payment.OneWayTotal(booked, None);
      Payment.TotalAmount(booked, false, None)
    }

    /** The payment sheet as written: opened one way, without a return flight, on the bare flight. */
    function PaymentAmount(): (s: string)
      reads this
      ensures FareValue(s) == FareValue(flight.price)
    {
      Payment.OneWayTotal(flight, None);
      Payment.TotalAmount(flight, false, None)
    }
  }

  /** The blank form is not valid. */
  lemma BlankPassengerInvalid()
    ensures !FormValid(BlankPassenger)
  {
  }

  /**
   * The payment sheet charges the base fare only: with a selected service
   * the booking total is higher than the payment total.
   */
  lemma PaymentOmitsServices(flight: Flight, services: seq<AdditionalService>, i: nat)
    requires i < |services| && services[i].isSelected && services[i].price > 0
    ensures TotalPrice(flight, services) > FareValue(Payment.TotalAmount(flight, false, None))
  {
    Payment.OneWayTotal(flight, None);
    ToggleChangesTotal(flight, services, i, false);
  }
}
