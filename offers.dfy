/**
 * Resolution of special offers: keep the offers for a station (compared
 * ignoring case) whose inclusive date window contains today, then take the
 * one with the largest discount. Kotlin's `maxByOrNull` only replaces its
 * candidate on a strictly larger value, so among equal discounts the offer
 * added first wins.
 */
module Offers {
  import opened Options
  import opened Data
  import opened Text

  /** The filter condition of `getActiveOfferForStation`. */
  predicate Applies(o: SpecialOffer, station: string, today: Date) {
    SameName(o.stationName, station) && o.startDate <= today <= o.endDate
  }

  /** `offers.filter { Applies(it) }`, order kept. */
  function Filter(offers: seq<SpecialOffer>, station: string, today: Date): (r: seq<SpecialOffer>)
    ensures |r| <= |offers|
    ensures forall o :: o in r <==> o in offers && Applies(o, station, today)
  {
    if offers == [] then []
    else
      var init := offers[..|offers| - 1];
      var last := offers[|offers| - 1];
      assert offers == init + [last];
      var kept := Filter(init, station, today);
      if Applies(last, station, today) then kept + [last] else kept
  }

  /** `maxByOrNull { it.discount }`: a left-to-right scan keeping the first maximum. */
  function MaxByDiscount(s: seq<SpecialOffer>): (r: Option<SpecialOffer>)
    ensures r.None? <==> s == []
    ensures r.Some? ==> r.value in s && forall o :: o in s ==> o.discount <= r.value.discount
  {
    if s == [] then None
    else
      var init := s[..|s| - 1];
      var last := s[|s| - 1];
      assert s == init + [last];
      match MaxByDiscount(init)
      case None => Some(last)
      case Some(m) => if last.discount > m.discount then Some(last) else Some(m)
  }

  function ActiveOffer(offers: seq<SpecialOffer>, station: string, today: Date): (r: Option<SpecialOffer>)
    ensures r.Some? ==> r.value in offers && Applies(r.value, station, today)
    ensures r.Some? ==> forall o :: o in offers && Applies(o, station, today) ==> o.discount <= r.value.discount
  {
    MaxByDiscount(Filter(offers, station, today))
  }

  /**
   * Offer number i is the one to choose: it applies, no applicable offer has a
   * larger discount, and every applicable offer added before it has a strictly
   * smaller one.
   */
  ghost predicate BestAt(offers: seq<SpecialOffer>, station: string, today: Date, i: int) {
    && 0 <= i < |offers|
    && Applies(offers[i], station, today)
    && (forall j :: 0 <= j < |offers| && Applies(offers[j], station, today) ==> offers[j].discount <= offers[i].discount)
    && (forall j :: 0 <= j < i && Applies(offers[j], station, today) ==> offers[j].discount < offers[i].discount)
  }

  /** At most one position is the best offer: the choice is deterministic. */
  lemma BestAtUnique(offers: seq<SpecialOffer>, station: string, today: Date, i: int, k: int)
    requires BestAt(offers, station, today, i) && BestAt(offers, station, today, k)
    ensures i == k
  {
  }

  /** Resolving the offers of `offers + [x]` looks at x only after the earlier ones. */
  lemma ActiveOfferSnoc(offers: seq<SpecialOffer>, x: SpecialOffer, station: string, today: Date)
    ensures ActiveOffer(offers + [x], station, today) ==
      if !Applies(x, station, today) then ActiveOffer(offers, station, today)
      else match ActiveOffer(offers, station, today)
        case None => Some(x)
        case Some(m) => if x.discount > m.discount then Some(x) else Some(m)
  {
    var all := offers + [x];
    assert all[..|all| - 1] == offers;
    var kept := Filter(offers, station, today);
    if Applies(x, station, today) {
      assert (kept + [x])[..|kept|] == kept;
    }
  }

  /** A best position of the earlier offers stays best when x does not beat it. */
  lemma BestAtKeep(init: seq<SpecialOffer>, x: SpecialOffer, station: string, today: Date, i: int)
    requires BestAt(init, station, today, i)
    requires Applies(x, station, today) ==> x.discount <= init[i].discount
    ensures BestAt(init + [x], station, today, i)
  {
    var offers := init + [x];
    forall j | 0 <= j < |offers| && Applies(offers[j], station, today)
      ensures offers[j].discount <= offers[i].discount
    {
      if j < |init| { assert offers[j] == init[j]; }
    }
  }

  /** A newly added offer is best when it beats every applicable earlier one. */
  lemma BestAtLast(init: seq<SpecialOffer>, x: SpecialOffer, station: string, today: Date)
    requires Applies(x, station, today)
    requires forall j :: 0 <= j < |init| && Applies(init[j], station, today) ==> init[j].discount < x.discount
    ensures BestAt(init + [x], station, today, |init|)
  {
    var offers := init + [x];
    forall j | 0 <= j < |offers| && Applies(offers[j], station, today)
      ensures offers[j].discount <= x.discount
    {
      if j < |init| { assert offers[j] == init[j]; }
    }
  }

  /** The resolver returns nothing exactly when no offer applies. */
  lemma ActiveOfferNone(offers: seq<SpecialOffer>, station: string, today: Date)
    ensures ActiveOffer(offers, station, today).None? <==>
      forall j :: 0 <= j < |offers| ==> !Applies(offers[j], station, today)
  {
    var kept := Filter(offers, station, today);
    if kept != [] {
      assert kept[0] in kept;
    }
  }

  /** From a best position of the earlier offers, the winner after adding x is at a best position. */
  lemma BestAtStep(init: seq<SpecialOffer>, x: SpecialOffer, station: string, today: Date, i: int)
    requires BestAt(init, station, today, i)
    ensures var w := if Applies(x, station, today) && x.discount > init[i].discount then x else init[i];
      exists k :: BestAt(init + [x], station, today, k) && (init + [x])[k] == w
  {
    var offers := init + [x];
    if Applies(x, station, today) && x.discount > init[i].discount {
      BestAtLast(init, x, station, today);
      assert offers[|init|] == x;
    } else {
      BestAtKeep(init, x, station, today, i);
      assert offers[i] == init[i];
    }
  }

  /** When an offer applies, the resolver's choice sits at the best position. */
  lemma {:induction false} ActiveOfferBestAt(offers: seq<SpecialOffer>, station: string, today: Date)
    ensures ActiveOffer(offers, station, today).Some? ==>
      exists i :: BestAt(offers, station, today, i) && offers[i] == ActiveOffer(offers, station, today).value
    decreases |offers|
  {
    if offers == [] {
      return;
    }
    var n := |offers|;
    var init := offers[..n - 1];
    var x := offers[n - 1];
    assert offers == init + [x];
    ActiveOfferSnoc(init, x, station, today);
    ActiveOfferBestAt(init, station, today);
    match ActiveOffer(init, station, today)
    case None =>
      if Applies(x, station, today) {
        ActiveOfferNone(init, station, today);
        BestAtLast(init, x, station, today);
        assert offers[n - 1] == x;
      }
    case Some(m) =>
      var i :| BestAt(init, station, today, i) && init[i] == m;
      BestAtStep(init, x, station, today, i);
  }

  /**
   * The resolver returns nothing exactly when no offer applies; otherwise it
   * returns the offer at the (unique) best position: largest discount,
   * earliest added among equals.
   */
  lemma ActiveOfferIsEarliestBest(offers: seq<SpecialOffer>, station: string, today: Date)
    ensures ActiveOffer(offers, station, today).None? <==>
      forall j :: 0 <= j < |offers| ==> !Applies(offers[j], station, today)
    ensures ActiveOffer(offers, station, today).Some? ==>
      exists i :: BestAt(offers, station, today, i) && offers[i] == ActiveOffer(offers, station, today).value
  {
    ActiveOfferNone(offers, station, today);
    ActiveOfferBestAt(offers, station, today);
  }
}
