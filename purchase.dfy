/**
 * The purchase flow shared by the two ticket services: money is inserted in
 * positive amounts, no ticket is issued while the balance is below the
 * price, and a sale deducts the price, bumps the destination's sales count,
 * credits the station's takings, issues a ticket and hands back the rest of
 * the balance as change.
 *
 * The interactive "Insert more money? (y/n)" loop is driven by `topUps`: the
 * amounts the customer types, one per "y"; when the list runs out the
 * customer answers "n" and the purchase is cancelled. An amount that is not
 * a number is given as 0 (both services refuse it like any other
 * non-positive amount).
 */
module Purchase {
  import opened Options
  import opened Data
  import opened Ledger
  import opened Pricing
  import opened Machine

  /** What a purchase attempt ends in. */
  datatype Outcome = Cancelled | Sold(ticket: Ticket, change: int)

  /** The part of the machine a purchase reads and writes. */
  datatype Till = Till(balance: int, destinations: seq<Destination>, takings: Takings)

  /** Balance after one insertion attempt: only positive amounts are taken. */
  function AfterInsert(balance: int, amount: int): (r: int)
    ensures r >= balance
    ensures r == balance <==> amount <= 0
    ensures amount > 0 ==> r - balance == amount
  {
    if amount > 0 then balance + amount else balance
  }

  /** The money a sequence of insertion attempts actually adds. */
  function Accepted(amounts: seq<int>): (r: int)
    ensures r >= 0
  {
    if amounts == [] then 0
    else (if amounts[0] > 0 then amounts[0] else 0) + Accepted(amounts[1..])
  }

  /**
   * The balance when the insufficient-funds loop ends: either it has reached
   * the price, or the customer has run out of top-ups (declined) and every
   * accepted top-up is in the balance.
   */
  function Collect(balance: int, price: int, topUps: seq<int>): (r: int)
    ensures balance <= r <= balance + Accepted(topUps)
    ensures r < price ==> r == balance + Accepted(topUps)
    ensures balance >= price ==> r == balance
    decreases topUps
  {
    if balance >= price || topUps == [] then balance
    else Collect(AfterInsert(balance, topUps[0]), price, topUps[1..])
  }

  /** Splitting off the first amount of a non-empty prefix. */
  lemma AcceptedPrefix(amounts: seq<int>, j: nat)
    requires 0 < j <= |amounts|
    ensures Accepted(amounts[..j]) == (if amounts[0] > 0 then amounts[0] else 0) + Accepted(amounts[1..][..j - 1])
  {
    assert amounts[..j][1..] == amounts[1..][..j - 1];
  }

  /**
   * The insufficient-funds loop, started at `balance`, ends at `r` after
   * taking the first k top-ups: `r` is the opening balance plus what those
   * k attempts added, the balance was still short of the price after every
   * earlier attempt, and the loop ends short of the price only when the
   * top-ups have run out.
   */
  ghost predicate StopsAfter(balance: int, price: int, topUps: seq<int>, r: int, k: int) {
    && 0 <= k <= |topUps|
    && r == balance + Accepted(topUps[..k])
    && (forall j :: 0 <= j < k ==> balance + Accepted(topUps[..j]) < price)
    && (k == |topUps| || r >= price)
  }

  /** One more attempt in front: a short balance followed by a loop that stops after k stops after k + 1. */
  lemma StopsAfterCons(balance: int, price: int, topUps: seq<int>, r: int, k: int)
    requires topUps != [] && balance < price
    requires StopsAfter(AfterInsert(balance, topUps[0]), price, topUps[1..], r, k)
    ensures StopsAfter(balance, price, topUps, r, k + 1)
  {
    AcceptedPrefix(topUps, k + 1);
    forall j | 0 <= j < k + 1
      ensures balance + Accepted(topUps[..j]) < price
    {
      if j == 0 {
        assert topUps[..0] == [];
      } else {
        AcceptedPrefix(topUps, j);
      }
    }
  }

  /**
   * The insufficient-funds loop takes top-ups one at a time and stops at the
   * first moment the balance covers the price, or when the top-ups run out.
   */
  lemma {:induction false} CollectStops(balance: int, price: int, topUps: seq<int>)
    ensures exists k :: StopsAfter(balance, price, topUps, Collect(balance, price, topUps), k)
    decreases topUps
  {
    if balance >= price || topUps == [] {
      assert topUps[..0] == [];
      assert StopsAfter(balance, price, topUps, Collect(balance, price, topUps), 0);
    } else {
      var next := AfterInsert(balance, topUps[0]);
      CollectStops(next, price, topUps[1..]);
      var k :| StopsAfter(next, price, topUps[1..], Collect(next, price, topUps[1..]), k);
      StopsAfterCons(balance, price, topUps, Collect(balance, price, topUps), k);
    }
  }

  /**
   * The effect of `proceedToPurchase(destination #index, type, price)`:
   * cancelled with the collected money still held, or sold with the
   * destination's count and the station's takings updated and the
   * remaining balance returned as change.
   */
  function Sale(t: Till, index: nat, ticketType: TicketType, price: int, topUps: seq<int>, today: Date): (r: (Till, Outcome))
    requires index < |t.destinations|
    ensures |r.0.destinations| == |t.destinations|
    ensures r.1.Cancelled? ==> r.0.balance < price
    ensures r.1.Sold? ==> r.0.balance == 0 && r.1.change >= 0
  {
    var collected := Collect(t.balance, price, topUps);
    if collected < price then
      (t.(balance := collected), Cancelled)
    else
      var d := t.destinations[index];
      (Till(0, t.destinations[index := d.(salesCount := d.salesCount + 1)], Credit(t.takings, d.stationName, price)),
       Sold(Ticket(Origin, d.stationName, price, ticketType, today), collected - price))
  }

  /** Pay before issue: a ticket is issued exactly when the collected balance covers the price. */
  lemma PayBeforeIssue(t: Till, index: nat, ticketType: TicketType, price: int, topUps: seq<int>, today: Date)
    requires index < |t.destinations|
    ensures var (_, out) := Sale(t, index, ticketType, price, topUps, today);
      out.Sold? <==> Collect(t.balance, price, topUps) >= price
    ensures t.balance + Accepted(topUps) >= price ==> Sale(t, index, ticketType, price, topUps, today).1.Sold?
  {
  }

  /** A sale returns the collected balance minus the price as change and leaves the balance at 0. */
  lemma SaleChange(t: Till, index: nat, ticketType: TicketType, price: int, topUps: seq<int>, today: Date)
    requires index < |t.destinations|
    requires Sale(t, index, ticketType, price, topUps, today).1.Sold?
    ensures var (after, out) := Sale(t, index, ticketType, price, topUps, today);
      && out.change == Collect(t.balance, price, topUps) - price
      && out.change >= 0
      && after.balance == 0
      && out.change <= t.balance + Accepted(topUps) - price
  {
  }

  /** The issued ticket carries the origin, the destination's name, the price charged and the type. */
  lemma SaleTicket(t: Till, index: nat, ticketType: TicketType, price: int, topUps: seq<int>, today: Date)
    requires index < |t.destinations|
    requires Sale(t, index, ticketType, price, topUps, today).1.Sold?
    ensures Sale(t, index, ticketType, price, topUps, today).1.ticket ==
      Ticket(Origin, t.destinations[index].stationName, price, ticketType, today)
  {
  }

  /**
   * A sale bumps exactly one sales counter by one and changes nothing else in
   * the catalog; the ledger total rises by exactly the price and only the
   * destination's station is credited.
   */
  lemma SaleBookkeeping(t: Till, index: nat, ticketType: TicketType, price: int, topUps: seq<int>, today: Date)
    requires index < |t.destinations|
    requires Sale(t, index, ticketType, price, topUps, today).1.Sold?
    ensures var after := Sale(t, index, ticketType, price, topUps, today).0;
      && |after.destinations| == |t.destinations|
      && after.destinations[index].salesCount == t.destinations[index].salesCount + 1
      && after.destinations[index] == t.destinations[index].(salesCount := after.destinations[index].salesCount)
      && (forall j :: 0 <= j < |t.destinations| && j != index ==> after.destinations[j] == t.destinations[j])
      && Total(after.takings) == Total(t.takings) + price
      && TakingsFor(after.takings, t.destinations[index].stationName) == TakingsFor(t.takings, t.destinations[index].stationName) + price
      && (forall s :: s != t.destinations[index].stationName ==> TakingsFor(after.takings, s) == TakingsFor(t.takings, s))
  {
    TotalCredit(t.takings, t.destinations[index].stationName, price);
  }

  /** A cancelled purchase keeps the collected money and leaves catalog and ledger alone. */
  lemma CancelChangesNothing(t: Till, index: nat, ticketType: TicketType, price: int, topUps: seq<int>, today: Date)
    requires index < |t.destinations|
    requires Sale(t, index, ticketType, price, topUps, today).1.Cancelled?
    ensures var after := Sale(t, index, ticketType, price, topUps, today).0;
      && after.destinations == t.destinations
      && after.takings == t.takings
      && after.balance == t.balance + Accepted(topUps)
      && after.balance < price
  {
  }

  /**
   * A purchase, sold or cancelled, keeps the catalog valid, and a sale at a
   * non-negative price keeps every station's takings non-negative.
   */
  lemma SaleKeepsInvariants(t: Till, index: nat, ticketType: TicketType, price: int, topUps: seq<int>, today: Date)
    requires index < |t.destinations|
    requires CatalogValid(t.destinations) && NonNegative(t.takings) && price >= 0
    ensures CatalogValid(Sale(t, index, ticketType, price, topUps, today).0.destinations)
    ensures NonNegative(Sale(t, index, ticketType, price, topUps, today).0.takings)
  {
    var after := Sale(t, index, ticketType, price, topUps, today).0;
    assert forall j :: 0 <= j < |t.destinations| ==> after.destinations[j].stationName == t.destinations[j].stationName;
  }

  class TicketService {
    const machine: TicketMachine
    var currentBalance: int

    /** Inserted money is never negative. */
    ghost predicate Valid()
      reads this
    {
      currentBalance >= 0
    }

    /** The state a purchase works on. */
    function Snapshot(): Till
      reads this, machine
    {
      Till(currentBalance, machine.destinations, machine.stationTakings)
    }

    constructor (machine: TicketMachine)
      ensures this.machine == machine
      ensures currentBalance == 0 && Valid()
    {
      this.machine := machine;
      currentBalance := 0;
    }

    /** Adds a positive amount to the balance; anything else is refused and changes nothing. */
    method InsertMoney(amount: int) returns (accepted: bool)
      modifies this
      ensures accepted == (amount > 0)
      ensures currentBalance == AfterInsert(old(currentBalance), amount)
    {
      if amount <= 0 {
        return false;
      }
      currentBalance := currentBalance + amount;
      return true;
    }

    function GetBalance(): int
      reads this
    {
      currentBalance
    }

    /** `proceedToPurchase(destinations[index], type, price)` */
    method ProceedToPurchase(index: nat, ticketType: TicketType, price: int, topUps: seq<int>, today: Date)
      returns (outcome: Outcome)
      requires Valid()
      requires index < |machine.destinations|
      modifies this, machine
      ensures Valid()
      ensures (Snapshot(), outcome) == Sale(old(Snapshot()), index, ticketType, price, topUps, today)
      ensures machine.specialOffers == old(machine.specialOffers)
    {
      var i := 0;
      while currentBalance < price
        invariant 0 <= i <= |topUps|
        invariant currentBalance >= old(currentBalance)
        invariant Collect(currentBalance, price, topUps[i..]) == Collect(old(currentBalance), price, topUps)
        modifies this
        decreases |topUps| - i
      {
        if i == |topUps| {
          // "Insert more money? (y/n)" answered with anything but "y"
          return Cancelled;
        }
        assert topUps[i..][1..] == topUps[i + 1..];
        var _ := InsertMoney(topUps[i]);
        i := i + 1;
      }
      currentBalance := currentBalance - price;
      var destination := machine.destinations[index];
      machine.destinations := machine.destinations[index := destination.(salesCount := destination.salesCount + 1)];
      machine.AddToTakings(destination.stationName, price);
      var ticket := Ticket(machine.originStation, destination.stationName, price, ticketType, today);
      var change := 0;
      if currentBalance > 0 {
        change := currentBalance;
        currentBalance := 0;
      }
      outcome := Sold(ticket, change);
    }

    /**
     * `searchTickets`: pick destination number `destChoice` (1-based) and
     * type number `typeChoice` (1 single, 2 return), quote the price with
     * any active offer, and buy it if the customer confirms. Invalid choices
     * and a refusal change nothing.
     */
    method SearchTickets(destChoice: int, typeChoice: int, confirm: bool, topUps: seq<int>, today: Date)
      returns (outcome: Option<Outcome>)
      requires Valid()
      modifies this, machine
      ensures Valid()
      ensures machine.specialOffers == old(machine.specialOffers)
      ensures if 1 <= destChoice <= |old(machine.destinations)| && 1 <= typeChoice <= 2 && confirm then
          var ticketType := if typeChoice == 1 then Single else Return;
          var price := QuoteByFactor(old(machine.destinations)[destChoice - 1], ticketType, machine.specialOffers, today);
          outcome.Some? && (Snapshot(), outcome.value) == Sale(old(Snapshot()), destChoice - 1, ticketType, price, topUps, today)
        else
          outcome.None? && Snapshot() == old(Snapshot())
    {
      if !(1 <= destChoice <= |machine.destinations|) || !(1 <= typeChoice <= 2) || !confirm {
        return None;
      }
      var selected := machine.destinations[destChoice - 1];
      var ticketType := if typeChoice == 1 then Single else Return;
      var basePrice := BasePrice(selected, ticketType);
      var offer := machine.GetActiveOfferForStation(selected.stationName, today);
      var finalPrice := if offer.Some? then DiscountByFactor(basePrice, offer.value.discount) else basePrice;
      var result := ProceedToPurchase(destChoice - 1, ticketType, finalPrice, topUps, today);
      outcome := Some(result);
    }

    /**
     * `quickPurchase(name, type)`: the first destination whose name matches
     * ignoring case is bought at its undiscounted price; an unknown name
     * changes nothing.
     */
    method QuickPurchase(destinationName: string, ticketType: TicketType, topUps: seq<int>, today: Date)
      returns (outcome: Option<Outcome>)
      requires Valid()
      modifies this, machine
      ensures Valid()
      ensures machine.specialOffers == old(machine.specialOffers)
      ensures match FindByName(old(machine.destinations), destinationName)
        case None => outcome.None? && Snapshot() == old(Snapshot())
        case Some(i) =>
          outcome.Some? &&
          (Snapshot(), outcome.value) == Sale(old(Snapshot()), i, ticketType, BasePrice(old(machine.destinations)[i], ticketType), topUps, today)
    {
      var found := FindByName(machine.destinations, destinationName);
      if found.None? {
        return None;
      }
      var destination := machine.destinations[found.value];
      var price := BasePrice(destination, ticketType);
      var result := ProceedToPurchase(found.value, ticketType, price, topUps, today);
      outcome := Some(result);
    }

    /** Cancels: whatever is held is handed back and the balance becomes 0. */
    method ReturnMoney() returns (refund: int)
      requires Valid()
      modifies this
      ensures refund == old(currentBalance)
      ensures currentBalance == 0
    {
      refund := 0;
      if currentBalance > 0 {
        refund := currentBalance;
        currentBalance := 0;
      }
    }
  }
}
