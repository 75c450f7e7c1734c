/**
 * The stand-alone destination record of the `models` package: it keeps its
 * own ticket count and takings, and can scale its prices by a factor.
 */
module Models {
  import opened Pricing

  class Destination {
    var name: string
    var singlePrice: int
    var returnPrice: int
    var ticketsSold: int
    var takings: int

    /** A destination with the default counters: nothing sold, no takings. */
    constructor (name: string, singlePrice: int, returnPrice: int)
      ensures this.name == name && this.singlePrice == singlePrice && this.returnPrice == returnPrice
      ensures ticketsSold == 0 && takings == 0
    {
      this.name := name;
      this.singlePrice := singlePrice;
      this.returnPrice := returnPrice;
      ticketsSold := 0;
      takings := 0;
    }

    /** One more ticket sold, and its price added to the takings. */
    method RecordSale(price: int)
      modifies this
      ensures ticketsSold == old(ticketsSold) + 1
      ensures takings == old(takings) + price
      ensures name == old(name) && singlePrice == old(singlePrice) && returnPrice == old(returnPrice)
    {
      ticketsSold := ticketsSold + 1;
      takings := takings + price;
    }

    /**
     * Scales both prices by `factor` percent, rounded to the penny. A factor
     * of zero or below is refused and changes nothing. Name, count and
     * takings never change.
     */
    method AdjustPrices(factor: int) returns (accepted: bool)
      modifies this
      ensures accepted == (factor > 0)
      ensures accepted ==> singlePrice == ScaledPrice(old(singlePrice), factor) && returnPrice == ScaledPrice(old(returnPrice), factor)
      ensures !accepted ==> singlePrice == old(singlePrice) && returnPrice == old(returnPrice)
      ensures name == old(name) && ticketsSold == old(ticketsSold) && takings == old(takings)
    {
      if factor <= 0 {
        return false;
      }
      singlePrice := ScaledPrice(singlePrice, factor);
      returnPrice := ScaledPrice(returnPrice, factor);
      return true;
    }
  }
}
