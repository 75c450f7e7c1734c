/**
 * Ticket prices. The base price is chosen by ticket type; an active offer
 * takes its percentage off. The two purchase services write the discount
 * differently (`price * (1 - d/100)` and `base - base * d/100`); both are
 * modelled and shown to give the same price. Prices are in pence, and a
 * result that falls between two pennies is rounded to the nearest one,
 * halves upward.
 */
module Pricing {
  import opened Options
  import opened Data
  import opened Offers

  /** `if (type == SINGLE) singlePrice else returnPrice` */
  function BasePrice(d: Destination, t: TicketType): (r: int)
    ensures r == d.singlePrice || r == d.returnPrice
    ensures t == Single ==> r == d.singlePrice
    ensures t == Return ==> r == d.returnPrice
  {
    match t
    case Single => d.singlePrice
    case Return => d.returnPrice
  }

  /** An amount in hundredths of a penny, rounded to the nearest penny (halves upward). */
  function RoundPence(h: int): (r: int)
    ensures 100 * r - 50 <= h < 100 * r + 50
  {
    (h + 50) / 100
  }

  /** `price * (1 - discount / 100)` */
  function DiscountByFactor(base: int, discount: Percent): (r: int)
    ensures 100 * r - 50 <= base * (100 - discount) < 100 * r + 50
    ensures base >= 0 ==> 0 <= r <= base
    ensures base >= 0 ==> (r < base <==> base * discount > 50)
  {
    var h := base * (100 - discount);
    assert h == 100 * base - base * discount;
    assert base >= 0 ==> 0 <= base * discount <= 100 * base;
    RoundPence(h)
  }

  /** `base - base * (discount / 100.0)` */
  function DiscountBySubtraction(base: int, discount: Percent): (r: int)
    ensures 100 * r - 50 <= 100 * base - base * discount < 100 * r + 50
  {
    RoundPence(100 * base - base * discount)
  }

  /** The two discount formulas of the two purchase services agree on every input. */
  lemma FormulasAgree(base: int, discount: Percent)
    ensures DiscountByFactor(base, discount) == DiscountBySubtraction(base, discount)
  {
    assert base * (100 - discount) == 100 * base - base * discount;
  }

  /** Price charged through the search screen of the first service (multiplying form). */
  function QuoteByFactor(d: Destination, t: TicketType, offers: seq<SpecialOffer>, today: Date): (r: int)
    ensures ActiveOffer(offers, d.stationName, today).None? ==> r == BasePrice(d, t)
    ensures var o := ActiveOffer(offers, d.stationName, today);
      o.Some? ==> r == DiscountByFactor(BasePrice(d, t), o.value.discount)
    ensures BasePrice(d, t) >= 0 ==> 0 <= r <= BasePrice(d, t)
    ensures BasePrice(d, t) >= 0 ==>
      (r < BasePrice(d, t) <==>
        var o := ActiveOffer(offers, d.stationName, today); o.Some? && BasePrice(d, t) * o.value.discount > 50)
  {
    var base := BasePrice(d, t);
    match ActiveOffer(offers, d.stationName, today)
    case None => base
    case Some(o) => DiscountByFactor(base, o.discount)
  }

  /** Price charged through the search screen of the second service (subtracting form). */
  function QuoteBySubtraction(d: Destination, t: TicketType, offers: seq<SpecialOffer>, today: Date): (r: int)
    ensures r == QuoteByFactor(d, t, offers, today)
  {
    var base := BasePrice(d, t);
    match ActiveOffer(offers, d.stationName, today)
    case None => base
    case Some(o) =>
      FormulasAgree(base, o.discount);
      DiscountBySubtraction(base, o.discount)
  }

  /** A price multiplied by `factor` percent (110 for x1.10), rounded to the penny. */
  function ScaledPrice(price: int, factor: int): (r: int)
    ensures 100 * r - 50 <= price * factor < 100 * r + 50
  {
    RoundPence(price * factor)
  }

  /** A factor of 100% leaves a price as it was. */
  lemma ScaleByHundred(price: int)
    ensures ScaledPrice(price, 100) == price
  {
  }

  /** A positive factor keeps a non-negative price non-negative and keeps the order of prices. */
  lemma ScaleMonotone(p: int, q: int, factor: int)
    requires 0 < factor && p <= q
    ensures ScaledPrice(p, factor) <= ScaledPrice(q, factor)
    ensures 0 <= p ==> 0 <= ScaledPrice(p, factor)
  {
    assert p * factor <= q * factor;
    if 0 <= p {
      assert 0 <= p * factor;
    }
  }

  /** A positive price stays positive under any factor of at least 50%. */
  lemma ScaleKeepsPositive(price: int, factor: int)
    requires price > 0 && factor >= 50
    ensures ScaledPrice(price, factor) > 0
  {
    assert price * factor >= 50;
  }
}
