/**
 * The ticket machine itself: the ordered catalog of destinations, the
 * per-station takings and the list of special offers, all updated in place.
 */
module Machine {
  import opened Options
  import opened Data
  import opened Text
  import opened Ledger
  import opened Offers

  /** The machine's own station, printed on every ticket. */
  const Origin: string := "Birmingham Central"

  /** The station names of a catalog. */
  function Names(ds: seq<Destination>): set<string> {
    set d | d in ds :: d.stationName
  }

  /** Extending a prefix of the catalog by one entry adds that entry's name. */
  lemma NamesStep(ds: seq<Destination>, i: nat)
    requires i < |ds|
    ensures Names(ds[..i + 1]) == Names(ds[..i]) + {ds[i].stationName}
  {
    assert ds[..i + 1] == ds[..i] + [ds[i]];
  }

  /** No two destinations share a name, ignoring case. */
  ghost predicate UniqueNames(ds: seq<Destination>) {
    forall i, j :: 0 <= i < j < |ds| ==> !SameName(ds[i].stationName, ds[j].stationName)
  }

  /**
   * The catalog invariant the admin screens maintain: distinct names,
   * positive prices, non-negative sales counts.
   */
  ghost predicate CatalogValid(ds: seq<Destination>) {
    && UniqueNames(ds)
    && forall i :: 0 <= i < |ds| ==> ds[i].singlePrice > 0 && ds[i].returnPrice > 0 && ds[i].salesCount >= 0
  }

  /** `destinations.any { it.stationName.equals(name, ignoreCase = true) }` */
  predicate HasName(ds: seq<Destination>, name: string) {
    exists i :: 0 <= i < |ds| && SameName(ds[i].stationName, name)
  }

  /**
   * `destinations.find { it.stationName.equals(name, ignoreCase = true) }`,
   * as the position of the first match.
   */
  function FindByName(ds: seq<Destination>, name: string): (r: Option<nat>)
    ensures r.None? <==> !HasName(ds, name)
    ensures r.Some? ==> r.value < |ds| && SameName(ds[r.value].stationName, name)
    ensures r.Some? ==> forall j :: 0 <= j < r.value ==> !SameName(ds[j].stationName, name)
  {
    if ds == [] then None
    else if SameName(ds[0].stationName, name) then Some(0)
    else
      match FindByName(ds[1..], name)
      case None =>
        assert forall j :: 1 <= j < |ds| ==> ds[j] == ds[1..][j - 1];
        None
      case Some(k) => Some(k + 1)
  }

  /** The ten destinations every machine starts with (prices in pence). */
  function DefaultDestinations(): seq<Destination> {
    [ Destination("London", 4550, 7500, 0),
      Destination("Manchester", 2500, 4000, 0),
      Destination("Liverpool", 3000, 5000, 0),
      Destination("Edinburgh", 6500, 11000, 0),
      Destination("Cardiff", 3500, 6000, 0),
      Destination("Bristol", 2800, 4800, 0),
      Destination("Newcastle", 5500, 9500, 0),
      Destination("Glasgow", 7000, 12000, 0),
      Destination("Leeds", 3200, 5400, 0),
      Destination("Sheffield", 2200, 3800, 0) ]
  }

  /** Names that differ in length or in their folded first letter are different names. */
  lemma DifferentNames(a: string, b: string)
    requires |a| != |b| || (a != [] && b != [] && LowerChar(a[0]) != LowerChar(b[0]))
    ensures !SameName(a, b)
  {
    if |a| == |b| {
      assert Lower(a)[0] != Lower(b)[0];
    }
  }

  /** The seeded names differ in length or in their initial letter, so no two are the same name. */
  lemma DefaultNamesUnique()
    ensures UniqueNames(DefaultDestinations())
  {
    var ds := DefaultDestinations();
    forall i, j | 0 <= i < j < |ds|
      ensures !SameName(ds[i].stationName, ds[j].stationName)
    {
      DifferentNames(ds[i].stationName, ds[j].stationName);
    }
  }

  /** The start-up catalog: ten destinations, none sold yet, positive prices, distinct names. */
  lemma DefaultCatalog()
    ensures |DefaultDestinations()| == 10
    ensures forall d :: d in DefaultDestinations() ==> d.salesCount == 0 && d.singlePrice > 0 && d.returnPrice > 0
    ensures CatalogValid(DefaultDestinations())
  {
    DefaultNamesUnique();
  }

  /** Appending a destination whose name is not yet listed keeps names distinct. */
  lemma AppendKeepsNamesUnique(ds: seq<Destination>, d: Destination)
    requires UniqueNames(ds) && !HasName(ds, d.stationName)
    ensures UniqueNames(ds + [d])
  {
    var all := ds + [d];
    forall i, j | 0 <= i < j < |all|
      ensures !SameName(all[i].stationName, all[j].stationName)
    {
      assert all[i] == ds[i];
      if j < |ds| {
        assert all[j] == ds[j];
      }
    }
  }

  class TicketMachine {
    var destinations: seq<Destination>
    var stationTakings: Takings
    var specialOffers: seq<SpecialOffer>
    const originStation: string := Origin

    /** `init { initializeDestinations() }` */
    constructor ()
      ensures destinations == DefaultDestinations()
      ensures stationTakings.Keys == Names(destinations)
      ensures forall s :: s in stationTakings ==> stationTakings[s] == 0
      ensures specialOffers == []
    {
      destinations := [];
      stationTakings := map[];
      specialOffers := [];
      new;
      InitializeDestinations();
    }

    /** Appends the default catalog, then sets the takings of every listed station to 0. */
    method InitializeDestinations()
      modifies this
      ensures destinations == old(destinations) + DefaultDestinations()
      ensures stationTakings.Keys == old(stationTakings).Keys + Names(destinations)
      ensures forall s :: s in stationTakings ==>
        stationTakings[s] == if s in Names(destinations) then 0 else old(stationTakings)[s]
      ensures specialOffers == old(specialOffers)
    {
      destinations := destinations + DefaultDestinations();
      var i := 0;
      while i < |destinations|
        invariant destinations == old(destinations) + DefaultDestinations()
        invariant specialOffers == old(specialOffers)
        invariant 0 <= i <= |destinations|
        invariant stationTakings.Keys == old(stationTakings).Keys + Names(destinations[..i])
        invariant forall s :: s in stationTakings ==>
          stationTakings[s] == if s in Names(destinations[..i]) then 0 else old(stationTakings)[s]
      {
        NamesStep(destinations, i);
        stationTakings := stationTakings[destinations[i].stationName := 0];
        i := i + 1;
      }
      assert destinations[..i] == destinations;
    }

    function GetDestinations(): seq<Destination>
      reads this
    {
      destinations
    }

    /** Appends a destination and sets its takings to 0, overwriting any earlier entry. */
    method AddDestination(destination: Destination)
      modifies this
      ensures destinations == old(destinations) + [destination]
      ensures stationTakings == old(stationTakings)[destination.stationName := 0]
      ensures specialOffers == old(specialOffers)
    {
      destinations := destinations + [destination];
      stationTakings := stationTakings[destination.stationName := 0];
    }

    function GetOriginStation(): (r: string)
      ensures r == Origin
    {
      originStation
    }

    /** Raises one station's takings by `amount`, a missing entry counting as 0. */
    method AddToTakings(stationName: string, amount: int)
      modifies this
      ensures stationTakings == Credit(old(stationTakings), stationName, amount)
      ensures destinations == old(destinations) && specialOffers == old(specialOffers)
    {
      var current := if stationName in stationTakings then stationTakings[stationName] else 0;
      stationTakings := stationTakings[stationName := current + amount];
    }

    /** Takings of one station; 0 for a station never recorded, never above the total. */
    function GetStationTakings(stationName: string): (r: int)
      reads this
      ensures stationName !in stationTakings ==> r == 0
      ensures NonNegative(stationTakings) ==> 0 <= r <= Total(stationTakings)
    {
      var r := TakingsFor(stationTakings, stationName);
      assert NonNegative(stationTakings) ==> 0 <= r <= Total(stationTakings) by {
        if NonNegative(stationTakings) {
          TakingsAtMostTotal(stationTakings, stationName);
        }
      }
      r
    }

    /** `stationTakings.values.sum()` */
    method GetTotalTakings() returns (total: int)
      ensures total == Total(stationTakings)
    {
      total := 0;
      var rest := stationTakings;
      while rest != map[]
        invariant total + Total(rest) == Total(stationTakings)
        decreases |rest|
      {
        var k :| k in rest;
        TotalRemove(rest, k);
        RemoveShrinks(rest, k);
        total := total + rest[k];
        rest := rest - {k};
      }
    }

    /** The best offer for a station that is valid on `today`, or none. */
    function GetActiveOfferForStation(stationName: string, today: Date): (r: Option<SpecialOffer>)
      reads this
      ensures r.Some? ==> r.value in specialOffers && Applies(r.value, stationName, today)
      ensures r.Some? ==> forall o :: o in specialOffers && Applies(o, stationName, today) ==> o.discount <= r.value.discount
      ensures r.None? <==> forall o :: o in specialOffers ==> !Applies(o, stationName, today)
    {
      ActiveOffer(specialOffers, stationName, today)
    }

    method AddSpecialOffer(offer: SpecialOffer)
      modifies this
      ensures specialOffers == old(specialOffers) + [offer]
      ensures destinations == old(destinations) && stationTakings == old(stationTakings)
    {
      specialOffers := specialOffers + [offer];
    }

    /**
     * Test data: the first destination named exactly "London" gets sales
     * count 5, and London's takings become 22750 pence.
     */
    method InitializeForTesting()
      modifies this
      ensures |destinations| == |old(destinations)|
      ensures forall j :: 0 <= j < |destinations| ==>
        destinations[j] ==
          if old(destinations)[j].stationName == "London" && forall k :: 0 <= k < j ==> old(destinations)[k].stationName != "London"
          then old(destinations)[j].(salesCount := 5)
          else old(destinations)[j]
      ensures stationTakings == old(stationTakings)["London" := 22750]
      ensures specialOffers == old(specialOffers)
    {
      var i := 0;
      while i < |destinations| && destinations[i].stationName != "London"
        invariant 0 <= i <= |destinations|
        invariant forall k :: 0 <= k < i ==> destinations[k].stationName != "London"
      {
        i := i + 1;
      }
      if i < |destinations| {
        destinations := destinations[i := destinations[i].(salesCount := 5)];
      }
      stationTakings := stationTakings["London" := 22750];
    }

    /** `specialOffers.toList()`: a copy; being a value, later additions do not reach it. */
    function GetSpecialOffers(): seq<SpecialOffer>
      reads this
    {
      specialOffers
    }
  }
}
