/** Value types of the booking form: cabin classes, passengers, add-on services. */
module BookingTypes {

  datatype SeatClass = Economy | Business | First

  /** `SeatClass.allCases`, in declaration order. */
  const SeatClasses: seq<SeatClass> := [Economy, Business, First]

  datatype IDType = IdCard | Passport | OtherId

  datatype PassengerType = Adult | Child | Infant

  datatype Passenger = Passenger(
    name: string,
    idType: IDType,
    idNumber: string,
    phoneNumber: string,
    passengerType: PassengerType)

  /** An add-on service; prices in the catalogue are whole yuan. */
  datatype AdditionalService = AdditionalService(
    name: string,
    description: string,
    price: nat,
    isSelected: bool)

  /** `AdditionalService.services`: the four add-ons, none selected. */
  const Services: seq<AdditionalService> := [
    AdditionalService("接送机", "专车接送服务", 199, false),
    AdditionalService("贵宾休息室", "享受舒适候机环境", 299, false),
    AdditionalService("快速安检", "优先安检通道", 99, false),
    AdditionalService("餐食升级", "享受精致餐食", 159, false)
  ]
}
