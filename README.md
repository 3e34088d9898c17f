# SkyFinder rules, modelled in Dafny

SkyFinder is a SwiftUI flight-booking app. It has no search engine. What it
does have is a single-entry route table and a set of small rules spread over
its models, view models and views. This project models those rules and proves
what they promise:

- the route table keyed by `origin-destination`, with its lookup and its
  flattening into all flights;
- airport autocomplete and the domestic/international partition;
- the booking-search view model: the airport swap, the no-op search and the
  initial flights;
- the flight filter's defaults and its editing: airline toggles, reset, and
  the clamp applied when a price thumb is dragged;
- price arithmetic: parsing fare strings such as `"¥1280"`, the booking total
  with add-on services, the order total, the weekday and cabin price tables;
- passenger-form validity and the guarded payment button;
- seat selection on the 5×5 grid, where occupied seats ignore taps;
- `Color(hex:)` integer decoding;
- the sign-up and login view models: their guards, `isLoading`, and the
  60-second verification countdown.

The model has one module per source file, plus four shared modules:

- `Wrappers`: optional values.
- `Text`: decimal digits, substring search and ASCII lower-casing.
- `Seqs`: an order-preserving filter with its specification.
- `Prices`: the `"¥<digits>"` fare format and its parser.

Prices are naturals, counted in whole yuan. A fare string is read as the
source reads a `"¥<digits>"` fare: the first character is dropped, the rest
is parsed as a number, and a string that does not parse counts as 0. Only
digit strings are parsed, and amounts are exact at every size. The source
parses with `Double` and prints with `Int(...)`. "## Left out" says where the
two differ.

Where the source updates state in place, the model is a class. This covers
`FlightBookingViewModel`, the filter being edited, the booking form, the seat
map and the two account view models. Each such class has `modifies` clauses,
and its methods state the whole new state. The remaining rules are functions,
and lemmas are proved about them.

Some things the source gets from outside are parameters of the model instead:

- the dragged slider value;
- the weekday, as an integer 1…7;
- the current date;
- the airport directory;
- the order in which the route dictionary yields its keys.

Each firing of a repeating timer is an explicit `Tick`. Each delayed
completion of a simulated request is an explicit method
(`VerificationCodeSent`, `SignupCompleted`, `LoginCompleted`).

## Model

| member | source | states |
|---|---|---|
| FlightRoutes.Key | SkyFinder/Models/FlightRoutes.swift:43 | A key is the origin, a hyphen and the destination: its length, the hyphen at the origin's length, and both slices. |
| FlightRoutes.KeyInjective | SkyFinder/Models/FlightRoutes.swift:43-52 | For hyphen-free codes, equal keys imply equal origin and equal destination, so distinct pairs never share a slot. |
| FlightRoutes.RouteMapOfSpec | SkyFinder/Models/FlightRoutes.swift:42-45 | The map's keys are exactly the routes' keys. Every entry is a one-element list holding the flight of some route with that key. |
| FlightRoutes.BuildRouteMap | SkyFinder/Models/FlightRoutes.swift:5-48 | The dictionary-building loop yields exactly `RouteMapOf` of the route list. |
| FlightRoutes.RegisteredPairFound | SkyFinder/Models/FlightRoutes.swift:43-53 | `flights(from:to:)` builds and looks up with the same key, so a route not overwritten by a later one with the same key is found as `[flight]`. |
| FlightRoutes.UnregisteredPairIsEmpty | SkyFinder/Models/FlightRoutes.swift:52-53 | When every route's codes are hyphen-free, looking up a pair no route registers returns the empty list. |
| FlightRoutes.LookupMatchesQuery | SkyFinder/Models/FlightRoutes.swift:11-53 | When every route's codes are hyphen-free and its flight departs and arrives at its key's codes, a lookup returns at most one flight, and that flight matches the queried departure and arrival. |
| FlightRoutes.CatalogueWellFormed | SkyFinder/Models/FlightRoutes.swift:11-36 | The three catalogue routes have hyphen-free codes, flights that match their keys, and distinct keys. |
| FlightRoutes.CatalogueRoutesFound | SkyFinder/Models/FlightRoutes.swift:11-54 | Every catalogue route is found by `flights(from:to:)` as its single flight. |
| FlightRoutes.PekShaExample | SkyFinder/Models/FlightRoutes.swift:11-53 | PEK to SHA is the single 07:00 AM ¥1280 国航 flight; SHA to PEK is empty. |
| FlightRoutes.AllRoutesContents | SkyFinder/Models/FlightRoutes.swift:57-59 | A flight is in `allRoutes`, the flattening of the table, exactly when some enumerated key maps to it. |
| FlightRoutes.AllRoutesLengthIsOrderLength | SkyFinder/Models/FlightRoutes.swift:57-59 | With one flight per key, the flattening has one flight per enumerated key. |
| FlightRoutes.DistinctCardinality | SkyFinder/Models/FlightRoutes.swift:58 | A duplicate-free key enumeration has as many elements as its set of keys. |
| FlightRoutes.AllRoutesOnePerKey | SkyFinder/Models/FlightRoutes.swift:44-59 | In any enumeration order, `allRoutes` has exactly as many flights as the map has keys. |
| FlightRoutes.RouteMapContents | SkyFinder/Models/FlightRoutes.swift:5-48 | The built table is exactly the three catalogue keys, each mapped to its own flight. |
| FlightRoutes.AllRoutesOfThree | SkyFinder/Models/FlightRoutes.swift:57-59 | For a three-key table in any order, the flattening has three flights, and they are exactly the three stored ones. |
| FlightRoutes.CatalogueAllRoutes | SkyFinder/Models/FlightRoutes.swift:11-59 | Whatever the dictionary's order, `allRoutes` is the three catalogue flights, each once. |
| AirportSelection.SearchSuggestions | SkyFinder/Views/Components/AirportSelectionView.swift:25-33 | An empty query gives no suggestions. Otherwise an airport is suggested exactly when it is in the directory and matches. Directory order is kept. |
| AirportSelection.FilteredAirports | SkyFinder/Views/Components/AirportSelectionView.swift:35-44 | An empty query gives the whole directory. Otherwise an airport is listed exactly when its code or city contains the query, ignoring case. Directory order is kept. |
| AirportSelection.SuggestionsAgreeWithFilter | SkyFinder/Views/Components/AirportSelectionView.swift:29-42 | For a non-empty query, the suggestions equal the filtered list. |
| AirportSelection.SectionsPartitionFiltered | SkyFinder/Views/Components/AirportSelectionView.swift:46-58 | The domestic and international sections are disjoint, order-preserving subsequences of the filtered list. Together they hold it as a multiset, and their sizes add up to its size. |
| AirportSelection.SectionMembership | SkyFinder/Views/Components/AirportSelectionView.swift:53-58 | A filtered airport is international exactly when its code contains NRT or ICN, and domestic exactly otherwise. |
| AirportSelection.CaseInsensitiveExample | SkyFinder/Views/Components/AirportSelectionView.swift:30-31 | The query "pek" matches the airport with code PEK. |
| Seqs.Filter | SkyFinder/Views/Components/AirportSelectionView.swift:29-54 | The filter keeps exactly the elements satisfying the predicate, with their multiplicities, as an order-preserving subsequence. |
| Seqs.FilterPartition | SkyFinder/Views/Components/AirportSelectionView.swift:46-58 | Filtering by a predicate and by its negation splits a sequence: the multisets add up, the lengths add up, and the two results are disjoint. |
| Text.ContainsAt | SkyFinder/Views/Components/AirportSelectionView.swift:30-31 | `contains` holds exactly when the query occurs at some position. |
| Text.Lower | SkyFinder/Views/Components/AirportSelectionView.swift:30-31 | Lower-casing keeps the length and maps each character on its own. |
| Text.NatToString | SkyFinder/Views/PaymentView.swift:25 | An integer prints as a non-empty string of digits with no leading zero. |
| Text.NatToStringRoundTrip | SkyFinder/Views/PaymentView.swift:25 | Reading back the printed digits gives the integer. |
| BookingSearch.FlightBookingViewModel.constructor | SkyFinder/ViewModels/FlightBookingViewModel.swift:4-39 | The view model starts at CDG/巴黎 to JFK/纽约 on the current date, with two flights that both depart from CDG, to DUB and to JFK. |
| BookingSearch.FlightBookingViewModel.SearchFlights | SkyFinder/ViewModels/FlightBookingViewModel.swift:41-43 | Searching changes no state. |
| BookingSearch.FlightBookingViewModel.SwapAirports | SkyFinder/ViewModels/FlightBookingViewModel.swift:45-54 | The from and to airports and cities change places. The date and the flights are unchanged. |
| BookingSearch.SwapTwiceRestores | SkyFinder/ViewModels/FlightBookingViewModel.swift:45-54 | Two swaps restore all four fields and leave everything else unchanged. |
| FlightFilters.DefaultFilter | SkyFinder/Models/FlightFilter.swift:4-9 | By default the price range is 0…10000, no airline is chosen, the cabin is economy, and direct-only is off. |
| FlightFilters.CabinClassesComplete | SkyFinder/Models/FlightFilter.swift:11-15 | There are exactly three cabin classes, all distinct, and their raw values are distinct. |
| FilterEditing.DragLower | SkyFinder/Views/Components/FlightFilterView.swift:159-160 | The lower end becomes the dragged value clamped between the slider minimum and the current upper end. The upper end stays. |
| FilterEditing.DragUpper | SkyFinder/Views/Components/FlightFilterView.swift:161-162 | The upper end becomes the dragged value clamped between the current lower end and the slider maximum. The lower end stays. |
| FilterEditing.DragKeepsWithin | SkyFinder/Views/Components/FlightFilterView.swift:91-163 | If min ≤ lower ≤ upper ≤ max holds before a drag of either thumb, it holds after the drag. |
| FilterEditing.FilterEditor.constructor | SkyFinder/Views/Components/FlightFilterView.swift:5 | The editor holds the filter it is given. |
| FilterEditing.FilterEditor.SetAirline | SkyFinder/Views/Components/FlightFilterView.swift:18-27 | Turning a toggle on inserts its airline and turning it off removes it. The toggle then reads as set, every other airline's toggle reads as before, and the rest of the filter is unchanged. |
| FilterEditing.FilterEditor.Reset | SkyFinder/Views/Components/FlightFilterView.swift:63-65 | Reset replaces the filter with the defaults. |
| FilterEditing.FilterEditor.DragLowerThumb | SkyFinder/Views/Components/FlightFilterView.swift:159-160 | Only the price range changes, and it is the lower-thumb clamp. The range stays within the slider bounds. |
| FilterEditing.FilterEditor.DragUpperThumb | SkyFinder/Views/Components/FlightFilterView.swift:161-162 | Only the price range changes, and it is the upper-thumb clamp. The range stays within the slider bounds. |
| Prices.DropFirst | SkyFinder/Views/FlightDetailView.swift:299 | `dropFirst` of an empty string is empty; otherwise it is the string without its first character. |
| Prices.ParseAmount | SkyFinder/Views/FlightDetailView.swift:299 | A number is read exactly when the text is a non-empty run of digits. |
| Prices.Yuan | SkyFinder/Views/PaymentView.swift:25 | A formatted amount is "¥" followed by at least one digit. |
| Prices.YuanRoundTrip | SkyFinder/Views/PaymentView.swift:23-25 | Parsing a formatted amount gives the amount back. |
| Prices.FourDigitFare | SkyFinder/Views/Components/DateSelectionView.swift:15-20 | A currency sign followed by four digits reads as the four-digit number those digits write. |
| Prices.UnparsableFareIsZero | SkyFinder/Views/PaymentView.swift:23-24 | A fare whose text after the first character is not a run of digits counts as 0. |
| DateSelection.WeekendFares | SkyFinder/Views/Components/DateSelectionView.swift:15-16 | On weekdays 1 and 7, `getPriceForDate` gives ¥1580, or ¥1880 at the normal fare. |
| DateSelection.FridayFares | SkyFinder/Views/Components/DateSelectionView.swift:17-18 | On weekday 6, `getPriceForDate` gives ¥1480, or ¥1780 at the normal fare. |
| DateSelection.WorkdayFares | SkyFinder/Views/Components/DateSelectionView.swift:19-20 | On every other weekday, `getPriceForDate` gives ¥1280, or ¥1580 at the normal fare. |
| DateSelection.FareOrdering | SkyFinder/Views/Components/DateSelectionView.swift:13-21 | On every branch the normal fare is 300 above the lowest. The weekend lowest fare is above the lowest fare of every day that is not a weekend. |
| FlightDetail.CalendarAgreesWithDatePicker | SkyFinder/Views/FlightDetailView.swift:150-155 | On every day except Friday, the calendar's `getPrice` shows the date picker's lowest fare: 1580 on weekends, 1280 otherwise. |
| FlightDetail.CalendarDiffersOnFriday | SkyFinder/Views/FlightDetailView.swift:153 | On Friday the calendar shows 1280, while the date picker's lowest Friday fare is 1480. |
| FlightDetail.CabinPricesIncrease | SkyFinder/Views/FlightDetailView.swift:237-243 | `getCabinPrice` gives economy 1280, business 3880 and first 6880, strictly increasing in cabin order. |
| FlightDetail.SelectedSumUnfold | SkyFinder/Views/FlightDetailView.swift:300-302 | The selected services' total is the first service's price if it is selected, plus the total of the rest. |
| FlightDetail.NothingSelectedTotal | SkyFinder/Views/FlightDetailView.swift:298-304 | With no service selected, `totalPrice` is the base fare. |
| FlightDetail.InitialTotal | SkyFinder/Views/FlightDetailView.swift:294-304 | With the initial service list, the total is the base fare. |
| FlightDetail.ToggleChangesTotal | SkyFinder/Views/FlightDetailView.swift:298-413 | Selecting a service raises the total by exactly its price, and deselecting one lowers it by its price. |
| FlightDetail.BookingForm.constructor | SkyFinder/Views/FlightDetailView.swift:286-296 | The form starts with a blank adult ID-card passenger and the initial services. It starts not valid and not showing payment. |
| FlightDetail.BookingForm.ValidateForm | SkyFinder/Views/FlightDetailView.swift:401-405 | `isValid` becomes: name non-empty, ID number non-empty, and an 11-character phone number. Nothing else changes. |
| FlightDetail.BookingForm.EditPassenger | SkyFinder/Views/FlightDetailView.swift:373-375 | Editing the passenger revalidates the form at once. Services and the payment sheet are unchanged. |
| FlightDetail.BookingForm.SetService | SkyFinder/Views/FlightDetailView.swift:298-413 | Toggling a service changes only that service's flag. The total moves by its price. |
| FlightDetail.BookingForm.ConfirmPayment | SkyFinder/Views/FlightDetailView.swift:377-388 | The disabled button opens the payment sheet only when the form is valid. Nothing else changes. |
| FlightDetail.BookingForm.ButtonAmount | SkyFinder/Views/FlightDetailView.swift:380 | The pay button's amount is "¥" followed by digits, and it reads back as `totalPrice`: the fare plus the selected services. |
| FlightDetail.BookingForm.ChargedAmount | SkyFinder/Views/FlightDetailView.swift:380-397 | Corrected: a payment sheet given the booked fare with its services charges exactly the amount on the pay button. |
| FlightDetail.BookingForm.PaymentAmount | SkyFinder/Views/FlightDetailView.swift:391-397 | The payment sheet, opened one-way and without a return flight, charges the base fare. |
| FlightDetail.BlankPassengerInvalid | SkyFinder/Views/FlightDetailView.swift:288-405 | The blank passenger is not valid, so payment cannot start before the form is filled in. |
| FlightDetail.PaymentOmitsServices | SkyFinder/Views/FlightDetailView.swift:298-397 | With a priced service selected, the booking total shown on the button is above the amount the payment sheet charges. |
| Payment.TotalAmount | SkyFinder/Views/PaymentView.swift:22-26 | The order total is "¥" followed by digits, and it parses back to the fare sum. |
| Payment.OneWayTotal | SkyFinder/Views/PaymentView.swift:24 | One way, the total behind `totalAmount` is the outbound fare, whatever return flight is supplied. |
| Payment.RoundTripWithoutReturn | SkyFinder/Views/PaymentView.swift:24 | On a round trip without a return flight, the return contributes 0. |
| Payment.RoundTripTotal | SkyFinder/Views/PaymentView.swift:23-25 | On a round trip with a return flight, the total is the sum of both parsed fares. |
| Payment.RoundTripOfFormattedFares | SkyFinder/Views/PaymentView.swift:23-25 | For fares "¥a" and "¥b", the round-trip amount is exactly "¥(a+b)". |
| SeatSelection.Grid | SkyFinder/Views/SeatSelectionView.swift:10-89 | The grid has one seat per column and row. |
| SeatSelection.SeatIdShape | SkyFinder/Views/SeatSelectionView.swift:89 | A seat id is the column letter A–E followed by the row digit 1–5. |
| SeatSelection.GridShape | SkyFinder/Views/SeatSelectionView.swift:10-89 | There are 25 seats, all distinct, each a letter A–E followed by a digit 1–5. |
| SeatSelection.OccupiedInGrid | SkyFinder/Views/SeatSelectionView.swift:12-14 | Every occupied seat is a seat of the grid. |
| SeatSelection.SeatMap.constructor | SkyFinder/Views/SeatSelectionView.swift:9 | No seat is selected at first. |
| SeatSelection.SeatMap.Tap | SkyFinder/Views/SeatSelectionView.swift:92-228 | A tap on an occupied seat leaves the selection unchanged. A tap on a free seat makes it the only selected seat. The selection is always absent or a free grid seat. |
| HexColor.HexValue | SkyFinder/Views/SeatSelectionView.swift:236 | A string of n hex digits has a value below 16^n. |
| HexColor.HexPrefixLength | SkyFinder/Views/SeatSelectionView.swift:236 | The scan reads the longest leading run of hex digits, and stops at the first character that is not one. |
| HexColor.ScanHex | SkyFinder/Views/SeatSelectionView.swift:236 | The scanned value of a string of length n is below 16^n. |
| HexColor.TrimStart | SkyFinder/Views/SeatSelectionView.swift:234 | Trimming the front removes a prefix of non-alphanumeric characters only, and leaves a suffix that is empty or starts with an alphanumeric character. |
| HexColor.TrimEnd | SkyFinder/Views/SeatSelectionView.swift:234 | Trimming the back removes a suffix of non-alphanumeric characters only, and leaves a prefix that is empty or ends with an alphanumeric character. |
| HexColor.Decode | SkyFinder/Views/SeatSelectionView.swift:233-247 | Every component of every decoded colour is at most 255. |
| HexColor.Components | SkyFinder/Views/SeatSelectionView.swift:238-247 | The per-length cases keep every component within a byte, for any scanned value that fits the length. |
| HexColor.PrefixByte | SkyFinder/Views/SeatSelectionView.swift:236-242 | Two more digits shift the scanned value left by one byte and add the byte they write. |
| HexColor.HexStringScansWhole | SkyFinder/Views/SeatSelectionView.swift:234-236 | A hex string is left alone by the trim and scanned whole. |
| HexColor.SixDigits | SkyFinder/Views/SeatSelectionView.swift:241-242 | Six digits give full alpha and, as red, green and blue, the bytes written by the first, second and third digit pairs. |
| HexColor.EightDigits | SkyFinder/Views/SeatSelectionView.swift:243-244 | Eight digits give the bytes of the four digit pairs as alpha, red, green and blue. |
| HexColor.ThreeDigits | SkyFinder/Views/SeatSelectionView.swift:239-240 | Three digits give full alpha and each digit times 17, so F becomes 255. |
| HexColor.OtherLength | SkyFinder/Views/SeatSelectionView.swift:245-246 | Any other trimmed length gives (1, 1, 1, 0). |
| HexColor.DecodeAfterTrim | SkyFinder/Views/SeatSelectionView.swift:234-238 | Two strings that trim to the same text decode to the same colour. |
| HexColor.DecodeIgnoresHash | SkyFinder/Views/SeatSelectionView.swift:234 | A leading "#" before hex digits is trimmed away, so the string decodes like the digits alone. |
| HexColor.BackgroundColour | SkyFinder/Views/SeatSelectionView.swift:234-242 | "#021324" decodes like "021324", to (255, 2, 19, 36). |
| Signup.SignupError | SkyFinder/ViewModels/SignupViewModel.swift:57-70 | Phone, code and password are checked in that order. The first empty one gives its message, and there is no error exactly when all three are filled in. |
| Signup.StartAsWritten | SkyFinder/ViewModels/SignupViewModel.swift:32-45 | As written, starting the countdown sets counting and 60 seconds, and schedules one more timer without invalidating the old one. |
| Signup.Stop | SkyFinder/ViewModels/SignupViewModel.swift:48-53 | Stopping invalidates the referenced timer, clears the reference, stops counting and resets to 60. |
| Signup.Start | SkyFinder/ViewModels/SignupViewModel.swift:32-53 | The corrected start leaves exactly one live timer beyond those a stop leaves. |
| Signup.TickStep | SkyFinder/ViewModels/SignupViewModel.swift:39-43 | A firing above 0 takes one second off; a firing at 0 stops the countdown. |
| Signup.IdleIsSound | SkyFinder/ViewModels/SignupViewModel.swift:11-13 | The initial countdown state meets the countdown invariant. |
| Signup.TickKeepsRange | SkyFinder/ViewModels/SignupViewModel.swift:12-52 | A firing keeps the seconds within 0…60, however many timers are scheduled. |
| Signup.StepsKeepSound | SkyFinder/ViewModels/SignupViewModel.swift:32-53 | Starting (corrected), stopping and firing keep the invariant. The invariant is: seconds within 0…60, exactly one referenced timer while counting, and 60 seconds whenever not counting. |
| Signup.CountsDown | SkyFinder/ViewModels/SignupViewModel.swift:39-40 | k firings of a running countdown with at least k seconds left take off exactly k seconds. |
| Signup.CountsDownAsWritten | SkyFinder/ViewModels/SignupViewModel.swift:39-40 | The same countdown arithmetic holds for any number of timers. |
| Signup.TicksSplit | SkyFinder/ViewModels/SignupViewModel.swift:36-44 | m + n firings are m firings followed by n more. |
| Signup.FullCountdown | SkyFinder/ViewModels/SignupViewModel.swift:34-43 | From a fresh start, 60 firings reach 0. The 61st ends the countdown with no timer left, and nothing fires after that. |
| Signup.StrayTimerAsWritten | SkyFinder/ViewModels/SignupViewModel.swift:25-53 | As written, two answered code requests leave a stray timer. After the countdown ends, it reads 59 seconds while not counting. |
| Signup.DoubleStartCorrected | SkyFinder/ViewModels/SignupViewModel.swift:32-53 | With the corrected start, two starts leave one timer, and 62 firings return to the idle state. |
| Signup.SignupViewModel.constructor | SkyFinder/ViewModels/SignupViewModel.swift:4-13 | The view model starts with empty fields, no error, not loading and not counting, at 60 seconds. |
| Signup.SignupViewModel.SendVerificationCode | SkyFinder/ViewModels/SignupViewModel.swift:16-23 | With no phone, it sets "请输入手机号" and loading stays as it was. Otherwise loading starts and the error is kept. The countdown is untouched. |
| Signup.SignupViewModel.VerificationCodeSent | SkyFinder/ViewModels/SignupViewModel.swift:25-28 | The request's completion ends loading and starts the countdown. |
| Signup.SignupViewModel.StartCountdown | SkyFinder/ViewModels/SignupViewModel.swift:32-45 | The countdown runs from 60 under a single timer, and the invariant holds. |
| Signup.SignupViewModel.Tick | SkyFinder/ViewModels/SignupViewModel.swift:36-44 | A firing above 0 takes one second off while still counting; a firing at 0 stops and resets to 60. The invariant holds. |
| Signup.SignupViewModel.StopCountdown | SkyFinder/ViewModels/SignupViewModel.swift:48-53 | The timer is dropped, counting stops at 60 seconds, and all other fields are kept. |
| Signup.SignupViewModel.Signup | SkyFinder/ViewModels/SignupViewModel.swift:56-73 | The first failing guard sets its error and loading stays as it was. With all fields filled in, loading starts and the error is kept. |
| Signup.SignupViewModel.SignupCompleted | SkyFinder/ViewModels/SignupViewModel.swift:75-76 | The request's completion ends loading and changes nothing else. |
| Login.LoginError | SkyFinder/ViewModels/LoginViewModel.swift:10-13 | There is an error exactly when the phone or the password is empty, and it is "请输入手机号和密码". |
| Login.LoginViewModel.constructor | SkyFinder/ViewModels/LoginViewModel.swift:4-7 | The view model starts with empty fields, not loading, with no error. |
| Login.LoginViewModel.Login | SkyFinder/ViewModels/LoginViewModel.swift:9-16 | With an empty field, it sets the error and loading stays. Otherwise loading starts and an earlier error is kept. Phone and password are never changed. |
| Login.LoginViewModel.LoginCompleted | SkyFinder/ViewModels/LoginViewModel.swift:18-19 | The request's completion ends loading and changes nothing else. |

## Left out

- Layout, navigation, sheets and styling: every SwiftUI `body` and every view that only arranges others.
- Dates: `Date` and `Calendar` computations are not modelled, including the departure-time ranges of `FlightFilter`'s initialiser and `Calendar.component(.weekday, ...)`. The weekday is an integer parameter and the current date is an integer given to the constructor.
- Floating point: fares are parsed only from `"¥<digits>"`, and `Double(...)` parsing of decimals, exponents or signs is not modelled. The conversion of colour components to `Double` fractions is not modelled. The slider geometry is not modelled; the dragged value arrives as a real number.
- Flight ids: the `UUID` id of `Flight` is not modelled. Flight equality in the model is equality of the remaining fields.
- Timing: `DispatchQueue.main.asyncAfter`, `Timer.scheduledTimer` and `NotificationCenter` posts are replaced by explicit completion and `Tick` methods. The order in which they fire is the caller's choice. The `deinit` of `SignupViewModel` is not modelled.
- `PaymentView.processPayment` and its delayed flags, `NetworkMonitor`, `UserViewModel` and `User` are not modelled. They hold constant data, network plumbing or timed UI flags.
- Dictionary order: `routeMap.values` comes in an order Swift does not specify, so `allRoutes` takes the key order as a parameter, and its lemmas hold for every order.
- The route catalogue is written in the source as a dictionary literal with tuple keys, iterated as pairs. The model reads it as a list of (origin, destination, flight) routes.
- The initial flights of `FlightBookingViewModel` omit the `isInternational` argument. The model sets it to false.
- Search: no connecting itineraries, ranking, caching or paging exist in these files, so none of them is modelled. A lookup miss is just the empty list.
- AirportSelection.FilteredAirports: matching uses ASCII case folding, not the locale rules of `localizedCaseInsensitiveContains`. The match is "contains", not "starts with", and an empty query lists the whole directory.
- HexColor.ScanHex: a leading `0x` or `0X`, which `Scanner.scanHexInt64` would skip, is read as the digit 0 followed by a stop. Leading whitespace is never present after the trim.
- HexColor.Decode: the trim uses ASCII alphanumerics; Unicode letters and digits outside ASCII are trimmed as well. The 64-bit width of the scanned integer never matters, because the lengths that are decoded have at most 8 digits.
- Prices.ParseAmount: reads only non-empty digit strings, exactly and at any length. Swift's `Double(...)` also reads decimals, exponents, signs, hex floats ("0x1A" gives 26), "inf" and "nan". It rounds digit runs above 2^53 to the nearest `Double`, so "¥9007199254740993" reads as 9007199254740992.
- Prices.YuanRoundTrip: holds for every natural. In the source, `"¥\(Int(x))"` read back with `Double` is exact only up to 2^53. `Int(...)` traps at 2^63 and above, and on inf or nan.
- Payment.TotalAmount: adds naturals exactly. The source adds two `Double`s, which rounds above 2^53, and `Int(...)` of the sum traps at 2^63 and above or on inf and nan. An unparsable fare is 0 in both.
- Payment.RoundTripOfFormattedFares: "exactly ¥(a+b)" holds in the source only while a, b and a+b are at most 2^53; beyond Int.max the conversion traps.
- FlightDetail.ToggleChangesTotal: service prices are `Double` in the source and naturals here. The catalogue's prices are whole yuan, and sums are exact in `Double` only up to 2^53. `Int(totalPrice)` on the button truncates a fractional total; the model has none.
- FlightDetail.BookingForm.ValidateForm: `phoneNumber.count == 11` counts Characters (grapheme clusters); the model counts code points. A phone number ending in a flag emoji such as "1234567890🇨🇳" is valid in the source and not in the model. `EditPassenger` inherits this.
- FlightDetail.BookingForm.EditPassenger: revalidates with `FormValid`, so it counts the phone number in code points where Swift counts Characters. It decides whether the passenger changed by comparing code points, where Swift's `==` on strings uses canonical equivalence.
- Prices.DropFirst and HexColor.Decode: `dropFirst()` and `hex.count` also work on Characters, where the model drops and counts code points. The two give the same result on the ASCII fares and colour strings the program uses.
- FilterEditing.DragLower and FilterEditing.DragUpper: the source builds the new range with `a...b`, which traps when a > b. Their requires are the conditions under which it does not trap, and every range the editor holds meets them. The trap itself is not modelled.
- Signup.SignupViewModel.StartCountdown: follows the corrected start, which invalidates the timer it replaces (see Findings). The class therefore does not reproduce the stray timer of the code as written; `Signup.StartAsWritten` does.

## Findings

| source | as written | input that shows it | evidently intended | confidence | as-written member | corrected member |
|---|---|---|---|---|---|---|
| SkyFinder/ViewModels/SignupViewModel.swift:32-36 | `startCountdown` schedules a new repeating timer and overwrites `timer` without invalidating the timer already held. `stopCountdown` then invalidates only the newest one. | Tap "获取验证码" twice within the one-second request delay. The button is disabled only while counting, not while loading. Both completions start a countdown. After 60 firings to zero and the firing that stops, the orphaned timer fires again: the countdown value is 59 while not counting, and it keeps cycling. The label is hidden then, because the button shows "获取验证码" when not counting. | At most one live timer. The countdown reads 60 whenever it is not counting. | medium; not executed | Signup.StrayTimerAsWritten | Signup.Start |
| SkyFinder/Views/FlightDetailView.swift:391-397 | The payment sheet is opened on the bare flight, so `totalAmount` charges its fare only. The pay button (line 380) and the breakdown show `totalPrice`, which includes the selected services. | Select "接送机" (¥199) on a ¥1280 flight. The button reads "确认支付 ¥1479", and the payment sheet charges ¥1280. | Payment charges the amount the button shows. | medium; not executed | FlightDetail.PaymentOmitsServices | FlightDetail.BookingForm.ChargedAmount |
