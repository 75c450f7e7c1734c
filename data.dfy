/**
 * The records of the ticket machine (`TicketType`, `Ticket`, `Destination`,
 * `SpecialOffer`). Money is held in integer pence, discounts in whole percent
 * and calendar dates as day numbers.
 */
module Data {

  /** A whole-number percentage between 0 and 100. */
  type Percent = d: int | 0 <= d <= 100

  /** A calendar day, as a day number; later days have larger numbers. */
  type Date = int

  datatype TicketType = Single | Return

  /** A sold ticket; a value, so it cannot change once built. Price in pence. */
  datatype Ticket = Ticket(origin: string, destination: string, price: int, ticketType: TicketType, purchaseDate: Date)

  /** A catalog entry: prices in pence and the number of tickets sold to it. */
  datatype Destination = Destination(stationName: string, singlePrice: int, returnPrice: int, salesCount: int)

  /** A time-bounded discount for one station; both dates are inclusive. */
  datatype SpecialOffer = SpecialOffer(id: int, stationName: string, discount: Percent, startDate: Date, endDate: Date, description: string)

  /** `Destination(name, single, return)` with the default sales count. */
  function NewDestination(stationName: string, singlePrice: int, returnPrice: int): (d: Destination)
    ensures d.salesCount == 0
    ensures d.stationName == stationName && d.singlePrice == singlePrice && d.returnPrice == returnPrice
  {
    Destination(stationName, singlePrice, returnPrice, 0)
  }
}
