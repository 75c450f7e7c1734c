/**
 * The administrator's screens: adding a destination with validation,
 * updating one destination's name or prices, scaling every price by one
 * factor, and the revenue report (destinations by descending takings, at
 * most five).
 */
module Admin {
  import opened Options
  import opened Data
  import opened Text
  import opened Ledger
  import opened Pricing
  import opened Machine

  datatype AddError = EmptyName | DuplicateName | InvalidSinglePrice | InvalidReturnPrice | NotConfirmed

  // ---------------------------------------------------------------- adding

  /**
   * The checks of `addDestination`, in their order: trimmed name non-empty,
   * not already listed (ignoring case), single price a positive number,
   * return price a positive number, and a return price below the single
   * price only with the operator's confirmation. `null` stands for input
   * that is not a number.
   */
  function CheckNewDestination(ds: seq<Destination>, rawName: string, single: Option<int>, ret: Option<int>, confirmLowReturn: bool)
    : (r: Result<Destination, AddError>)
    ensures r.Ok? <==>
      && Trim(rawName) != []
      && !HasName(ds, Trim(rawName))
      && single.Some? && single.value > 0
      && ret.Some? && ret.value > 0
      && (ret.value >= single.value || confirmLowReturn)
    ensures r.Ok? ==> r.value == NewDestination(Trim(rawName), single.value, ret.value)
    ensures r == Err(EmptyName) <==> forall i :: 0 <= i < |rawName| ==> IsWhitespace(rawName[i])
    ensures r == Err(DuplicateName) ==> HasName(ds, Trim(rawName))
  {
    var name := Trim(rawName);
    if name == [] then Err(EmptyName)
    else if HasName(ds, name) then Err(DuplicateName)
    else if single.None? || single.value <= 0 then Err(InvalidSinglePrice)
    else if ret.None? || ret.value <= 0 then Err(InvalidReturnPrice)
    else if ret.value < single.value && !confirmLowReturn then Err(NotConfirmed)
    else Ok(NewDestination(name, single.value, ret.value))
  }

  /** A destination that passes the checks keeps the catalog valid when appended. */
  lemma AddKeepsCatalogValid(ds: seq<Destination>, rawName: string, single: Option<int>, ret: Option<int>, confirmLowReturn: bool)
    requires CatalogValid(ds)
    requires CheckNewDestination(ds, rawName, single, ret, confirmLowReturn).Ok?
    ensures CatalogValid(ds + [CheckNewDestination(ds, rawName, single, ret, confirmLowReturn).value])
  {
    var d := CheckNewDestination(ds, rawName, single, ret, confirmLowReturn).value;
    AppendKeepsNamesUnique(ds, d);
  }

  // -------------------------------------------------------------- updating

  /** `updateSinglePrice`: only a positive number replaces the price. */
  function WithSinglePrice(d: Destination, newPrice: Option<int>): (r: Destination)
    ensures newPrice.Some? && newPrice.value > 0 ==> r == d.(singlePrice := newPrice.value)
    ensures !(newPrice.Some? && newPrice.value > 0) ==> r == d
    ensures d.singlePrice > 0 ==> r.singlePrice > 0
  {
    if newPrice.Some? && newPrice.value > 0 then d.(singlePrice := newPrice.value) else d
  }

  /** `updateReturnPrice`: only a positive number replaces the price. */
  function WithReturnPrice(d: Destination, newPrice: Option<int>): (r: Destination)
    ensures newPrice.Some? && newPrice.value > 0 ==> r == d.(returnPrice := newPrice.value)
    ensures !(newPrice.Some? && newPrice.value > 0) ==> r == d
    ensures d.returnPrice > 0 ==> r.returnPrice > 0
  {
    if newPrice.Some? && newPrice.value > 0 then d.(returnPrice := newPrice.value) else d
  }

  /**
   * `updateStationName` as written: a trimmed, non-empty name different
   * from the current one is taken, without looking at the other names.
   */
  function RenameAsWritten(ds: seq<Destination>, i: nat, rawName: string): (r: seq<Destination>)
    requires i < |ds|
    ensures |r| == |ds|
    ensures forall j :: 0 <= j < |ds| && j != i ==> r[j] == ds[j]
    ensures r[i] == ds[i] || r[i] == ds[i].(stationName := Trim(rawName))
    ensures r[i] != ds[i] <==> Trim(rawName) != [] && Trim(rawName) != ds[i].stationName
  {
    var name := Trim(rawName);
    if name != [] && name != ds[i].stationName then ds[i := ds[i].(stationName := name)] else ds
  }

  /** Another destination than number i already carries `name`, ignoring case. */
  predicate NameTakenByOther(ds: seq<Destination>, i: nat, name: string) {
    exists j :: 0 <= j < |ds| && j != i && SameName(ds[j].stationName, name)
  }

  /**
   * `updateStationName` with the duplicate check `addDestination` makes:
   * the new name must also not belong to another destination.
   */
  function Rename(ds: seq<Destination>, i: nat, rawName: string): (r: seq<Destination>)
    requires i < |ds|
    ensures |r| == |ds|
  {
    var name := Trim(rawName);
    if name != [] && name != ds[i].stationName && !NameTakenByOther(ds, i, name) then
      ds[i := ds[i].(stationName := name)]
    else
      ds
  }

  /**
   * Only destination i can change, and only its name; it is renamed exactly
   * when the trimmed name is non-empty, new, and nobody else's.
   */
  lemma RenameEffect(ds: seq<Destination>, i: nat, rawName: string)
    requires i < |ds|
    ensures forall j :: 0 <= j < |ds| && j != i ==> Rename(ds, i, rawName)[j] == ds[j]
    ensures Rename(ds, i, rawName)[i] == ds[i] || Rename(ds, i, rawName)[i] == ds[i].(stationName := Trim(rawName))
    ensures Rename(ds, i, rawName)[i] != ds[i] <==>
      Trim(rawName) != [] && Trim(rawName) != ds[i].stationName && !NameTakenByOther(ds, i, Trim(rawName))
  {
  }

  /** Renaming with the duplicate check keeps names distinct. */
  lemma RenameKeepsNamesUnique(ds: seq<Destination>, i: nat, rawName: string)
    requires i < |ds| && UniqueNames(ds)
    ensures UniqueNames(Rename(ds, i, rawName))
  {
    RenameEffect(ds, i, rawName);
    var r := Rename(ds, i, rawName);
    forall a, b | 0 <= a < b < |r|
      ensures !SameName(r[a].stationName, r[b].stationName)
    {
      if r[i] != ds[i] && (a == i || b == i) {
        var other := if a == i then b else a;
        assert !SameName(ds[other].stationName, Trim(rawName));
      }
    }
  }

  /** "London" and "london" are the same name ignoring case. */
  lemma LondonSameName()
    ensures SameName("London", "london")
  {
    var a := Lower("London");
    var b := Lower("london");
    forall k | 0 <= k < 6
      ensures a[k] == b[k]
    {
    }
  }

  /** "london" has no surrounding whitespace. */
  lemma LondonTrimmed()
    ensures Trim("london") == "london"
  {
    assert !IsWhitespace("london"[0]);
    assert TrimStart("london") == "london";
    assert !IsWhitespace("london"[5]);
  }

  /** A two-entry catalog has unique names exactly when its two names differ ignoring case. */
  lemma TwoEntryCatalog(a: Destination, b: Destination)
    ensures UniqueNames([a, b]) <==> !SameName(a.stationName, b.stationName)
  {
    var ds := [a, b];
    if SameName(a.stationName, b.stationName) {
      assert ds[0] == a && ds[1] == b;
    } else {
      forall i, j | 0 <= i < j < |ds|
        ensures !SameName(ds[i].stationName, ds[j].stationName)
      {
        assert i == 0 && j == 1;
      }
    }
  }

  /** The example catalog [London, Leeds] has distinct names. */
  lemma LondonLeedsUnique()
    ensures UniqueNames([Destination("London", 4550, 7500, 0), Destination("Leeds", 3200, 5400, 0)])
  {
    DifferentNames("London", "Leeds");
    TwoEntryCatalog(Destination("London", 4550, 7500, 0), Destination("Leeds", 3200, 5400, 0));
  }

  /** As written, renaming Leeds to "london" in [London, Leeds] is accepted. */
  lemma RenameLeedsAsWritten()
    ensures RenameAsWritten([Destination("London", 4550, 7500, 0), Destination("Leeds", 3200, 5400, 0)], 1, "london")
      == [Destination("London", 4550, 7500, 0), Destination("london", 3200, 5400, 0)]
  {
    LondonTrimmed();
  }

  /** [London, london] does not have distinct names. */
  lemma LondonTwiceNotUnique()
    ensures !UniqueNames([Destination("London", 4550, 7500, 0), Destination("london", 3200, 5400, 0)])
  {
    LondonSameName();
    TwoEntryCatalog(Destination("London", 4550, 7500, 0), Destination("london", 3200, 5400, 0));
  }

  /**
   * As written, renaming "Leeds" to "london" in a catalog that lists
   * "London" is accepted and leaves two destinations with the same name.
   */
  lemma RenameAsWrittenBreaksUniqueness()
    ensures var ds := [Destination("London", 4550, 7500, 0), Destination("Leeds", 3200, 5400, 0)];
      UniqueNames(ds) && !UniqueNames(RenameAsWritten(ds, 1, "london"))
  {
    LondonLeedsUnique();
    RenameLeedsAsWritten();
    LondonTwiceNotUnique();
  }

  /** Destination number i with `updateSinglePrice` applied. */
  function SetSingle(ds: seq<Destination>, i: nat, newPrice: Option<int>): (r: seq<Destination>)
    requires i < |ds|
    ensures |r| == |ds|
    ensures forall j :: 0 <= j < |ds| && j != i ==> r[j] == ds[j]
    ensures r[i] == WithSinglePrice(ds[i], newPrice)
  {
    ds[i := WithSinglePrice(ds[i], newPrice)]
  }

  /** Destination number i with `updateReturnPrice` applied. */
  function SetReturn(ds: seq<Destination>, i: nat, newPrice: Option<int>): (r: seq<Destination>)
    requires i < |ds|
    ensures |r| == |ds|
    ensures forall j :: 0 <= j < |ds| && j != i ==> r[j] == ds[j]
    ensures r[i] == WithReturnPrice(ds[i], newPrice)
  {
    ds[i := WithReturnPrice(ds[i], newPrice)]
  }

  /** Options 4 and 5 of the update menu: the single price, then the return price. */
  function BothPrices(ds: seq<Destination>, i: nat, single: Option<int>, ret: Option<int>): (r: seq<Destination>)
    requires i < |ds|
    ensures |r| == |ds|
  {
    SetReturn(SetSingle(ds, i, single), i, ret)
  }

  /** A single-price update keeps the catalog valid. */
  lemma SetSingleKeepsCatalogValid(ds: seq<Destination>, i: nat, newPrice: Option<int>)
    requires i < |ds| && CatalogValid(ds)
    ensures CatalogValid(SetSingle(ds, i, newPrice))
  {
    var s := SetSingle(ds, i, newPrice);
    assert forall j :: 0 <= j < |ds| ==> s[j].stationName == ds[j].stationName;
  }

  /** A return-price update keeps the catalog valid. */
  lemma SetReturnKeepsCatalogValid(ds: seq<Destination>, i: nat, newPrice: Option<int>)
    requires i < |ds| && CatalogValid(ds)
    ensures CatalogValid(SetReturn(ds, i, newPrice))
  {
    var s := SetReturn(ds, i, newPrice);
    assert forall j :: 0 <= j < |ds| ==> s[j].stationName == ds[j].stationName;
  }

  /** Renaming with the duplicate check keeps the catalog valid. */
  lemma RenameKeepsCatalogValid(ds: seq<Destination>, i: nat, rawName: string)
    requires i < |ds| && CatalogValid(ds)
    ensures CatalogValid(Rename(ds, i, rawName))
  {
    RenameKeepsNamesUnique(ds, i, rawName);
  }

  /** The "update destination" menu: 1 name, 2 single, 3 return, 4 both prices, 5 all; other options do nothing. */
  function UpdateChoice(ds: seq<Destination>, i: nat, option: int, rawName: string, single: Option<int>, ret: Option<int>)
    : (r: seq<Destination>)
    requires i < |ds|
    ensures |r| == |ds|
    ensures !(1 <= option <= 5) ==> r == ds
  {
    if option == 1 then Rename(ds, i, rawName)
    else if option == 2 then SetSingle(ds, i, single)
    else if option == 3 then SetReturn(ds, i, ret)
    else if option == 4 then BothPrices(ds, i, single, ret)
    else if option == 5 then BothPrices(Rename(ds, i, rawName), i, single, ret)
    else ds
  }

  /** Updating both prices keeps the catalog valid and the sales count. */
  lemma BothPricesKeepCatalogValid(ds: seq<Destination>, i: nat, single: Option<int>, ret: Option<int>)
    requires i < |ds| && CatalogValid(ds)
    ensures CatalogValid(BothPrices(ds, i, single, ret))
    ensures BothPrices(ds, i, single, ret)[i].salesCount == ds[i].salesCount
  {
    SetSingleKeepsCatalogValid(ds, i, single);
    SetReturnKeepsCatalogValid(SetSingle(ds, i, single), i, ret);
  }

  /** A price update changes only the chosen destination. */
  lemma BothPricesTouchOnlyChosen(ds: seq<Destination>, i: nat, single: Option<int>, ret: Option<int>)
    requires i < |ds|
    ensures forall j :: 0 <= j < |ds| && j != i ==> BothPrices(ds, i, single, ret)[j] == ds[j]
  {
    var s := SetSingle(ds, i, single);
    assert forall j :: 0 <= j < |ds| && j != i ==> s[j] == ds[j];
  }

  /** Whatever the option, only the chosen destination can change. */
  lemma UpdateTouchesOnlyChosen(ds: seq<Destination>, i: nat, option: int, rawName: string, single: Option<int>, ret: Option<int>)
    requires i < |ds|
    ensures forall j :: 0 <= j < |ds| && j != i ==> UpdateChoice(ds, i, option, rawName, single, ret)[j] == ds[j]
  {
    if option == 1 {
      RenameEffect(ds, i, rawName);
    } else if option == 4 {
      BothPricesTouchOnlyChosen(ds, i, single, ret);
    } else if option == 5 {
      RenameEffect(ds, i, rawName);
      BothPricesTouchOnlyChosen(Rename(ds, i, rawName), i, single, ret);
    }
  }

  /** No update reaches the sales count, and every update keeps the catalog valid. */
  lemma UpdateKeepsCatalogValid(ds: seq<Destination>, i: nat, option: int, rawName: string, single: Option<int>, ret: Option<int>)
    requires i < |ds| && CatalogValid(ds)
    ensures CatalogValid(UpdateChoice(ds, i, option, rawName, single, ret))
    ensures UpdateChoice(ds, i, option, rawName, single, ret)[i].salesCount == ds[i].salesCount
  {
    if option == 1 {
      RenameKeepsCatalogValid(ds, i, rawName);
    } else if option == 2 {
      SetSingleKeepsCatalogValid(ds, i, single);
    } else if option == 3 {
      SetReturnKeepsCatalogValid(ds, i, ret);
    } else if option == 4 {
      BothPricesKeepCatalogValid(ds, i, single, ret);
    } else if option == 5 {
      RenameKeepsCatalogValid(ds, i, rawName);
      BothPricesKeepCatalogValid(Rename(ds, i, rawName), i, single, ret);
    }
  }

  // ----------------------------------------------------- bulk price changes

  /**
   * The factor of `adjustAllPrices` as written, in percent of the old price:
   * options 1-4 are +5%, +10%, -5%, -10%; option 5 adds a custom percentage
   * (which may be -100 or less); anything else cancels.
   */
  function FactorAsWritten(option: int, percent: int): (r: Option<int>)
    ensures r.Some? <==> 1 <= option <= 5
    ensures 1 <= option <= 4 ==> 90 <= r.value <= 110 && r.value != 100
    ensures option == 5 ==> r.value - 100 == percent
  {
    if option == 1 then Some(105)
    else if option == 2 then Some(110)
    else if option == 3 then Some(95)
    else if option == 4 then Some(90)
    else if option == 5 then Some(100 + percent)
    else None
  }

  /** The factor with the guard `adjustPrices` has: a factor of 0 or below is refused. */
  function SelectFactor(option: int, percent: int): (r: Option<int>)
    ensures r.Some? ==> r.value > 0 && Some(r.value) == FactorAsWritten(option, percent)
    ensures r.None? <==> FactorAsWritten(option, percent).None? || FactorAsWritten(option, percent).value <= 0
  {
    match FactorAsWritten(option, percent)
    case None => None
    case Some(f) => if f > 0 then Some(f) else None
  }

  /** One destination with both prices multiplied by `factor` percent. */
  function Scaled(d: Destination, factor: int): Destination {
    d.(singlePrice := ScaledPrice(d.singlePrice, factor), returnPrice := ScaledPrice(d.returnPrice, factor))
  }

  /** `adjustAllPrices`' loop: every destination's two prices scaled by `factor`, names and counts kept. */
  function ScaleAll(ds: seq<Destination>, factor: int): (r: seq<Destination>)
    ensures |r| == |ds|
    ensures forall k :: 0 <= k < |ds| ==>
      && r[k].stationName == ds[k].stationName
      && r[k].salesCount == ds[k].salesCount
      && r[k].singlePrice == ScaledPrice(ds[k].singlePrice, factor)
      && r[k].returnPrice == ScaledPrice(ds[k].returnPrice, factor)
  {
    seq(|ds|, k requires 0 <= k < |ds| => Scaled(ds[k], factor))
  }

  /**
   * Scaling changes only prices: names and sales counts stay, so names stay
   * distinct; a factor of at least 50% keeps every price positive.
   */
  lemma ScaleAllKeepsCatalogValid(ds: seq<Destination>, factor: int)
    requires CatalogValid(ds) && factor >= 50
    ensures CatalogValid(ScaleAll(ds, factor))
    ensures forall k :: 0 <= k < |ds| ==>
      ScaleAll(ds, factor)[k].stationName == ds[k].stationName && ScaleAll(ds, factor)[k].salesCount == ds[k].salesCount
  {
    var r := ScaleAll(ds, factor);
    forall k | 0 <= k < |ds|
      ensures r[k].singlePrice > 0 && r[k].returnPrice > 0
    {
      ScaleKeepsPositive(ds[k].singlePrice, factor);
      ScaleKeepsPositive(ds[k].returnPrice, factor);
    }
  }

  /**
   * As written, the custom option with -100% yields factor 0 and the
   * confirmed adjustment sets every price of the start-up catalog to 0.
   * With the guard the same input is refused.
   */
  lemma AsWrittenFactorZeroesPrices()
    ensures FactorAsWritten(5, -100) == Some(0)
    ensures CatalogValid(DefaultDestinations())
    ensures var ds := ScaleAll(DefaultDestinations(), 0);
      |ds| == 10 && forall k :: 0 <= k < |ds| ==> ds[k].singlePrice == 0 && ds[k].returnPrice == 0
    ensures !CatalogValid(ScaleAll(DefaultDestinations(), 0))
    ensures SelectFactor(5, -100).None?
  {
    DefaultCatalog();
    var ds := ScaleAll(DefaultDestinations(), 0);
    assert ds[0].singlePrice == 0;
  }

  // -------------------------------------------------------- revenue report

  /** The takings of each catalog entry, by position. */
  function TakingsKeys(ds: seq<Destination>, takings: Takings): (keys: seq<int>)
    ensures |keys| == |ds|
    ensures forall i :: 0 <= i < |ds| ==> keys[i] == TakingsFor(takings, ds[i].stationName)
  {
    seq(|ds|, i requires 0 <= i < |ds| => TakingsFor(takings, ds[i].stationName))
  }

  /** Position a is listed before position b: more takings, or equal takings and earlier in the catalog. */
  predicate Before(keys: seq<int>, a: nat, b: nat)
    requires a < |keys| && b < |keys|
  {
    keys[a] > keys[b] || (keys[a] == keys[b] && a < b)
  }

  /** A list of positions in the order of a stable sort by descending key. */
  ghost predicate Ordered(keys: seq<int>, s: seq<nat>) {
    && (forall k :: 0 <= k < |s| ==> s[k] < |keys|)
    && (forall a, b :: 0 <= a < b < |s| ==> Before(keys, s[a], s[b]))
  }

  /** A position listed before every element of an ordered list can head it. */
  lemma ConsOrdered(keys: seq<int>, h: nat, rest: seq<nat>)
    requires h < |keys| && Ordered(keys, rest)
    requires forall y :: y in rest ==> y < |keys| && Before(keys, h, y)
    ensures Ordered(keys, [h] + rest)
  {
    var r := [h] + rest;
    forall a, b | 0 <= a < b < |r|
      ensures Before(keys, r[a], r[b])
    {
      assert r[b] == rest[b - 1];
      if a > 0 {
        assert r[a] == rest[a - 1];
      } else {
        assert rest[b - 1] in rest;
      }
    }
  }

  /** In an ordered list, the head comes before every later element. */
  lemma HeadBefore(keys: seq<int>, sorted: seq<nat>)
    requires Ordered(keys, sorted) && sorted != []
    ensures forall y :: y in sorted[1..] ==> y < |keys| && Before(keys, sorted[0], y)
  {
    forall y | y in sorted[1..]
      ensures y < |keys| && Before(keys, sorted[0], y)
    {
      var b :| 0 <= b < |sorted[1..]| && sorted[1..][b] == y;
      assert sorted[b + 1] == y;
    }
  }

  /** Inserts position x, smaller than every position present, into a stably ordered list. */
  function InsertPosition(keys: seq<int>, x: nat, sorted: seq<nat>): (r: seq<nat>)
    requires x < |keys| && Ordered(keys, sorted)
    requires forall y :: y in sorted ==> x < y
    ensures |r| == |sorted| + 1
    ensures forall y :: y in r <==> y == x || y in sorted
    ensures Ordered(keys, r)
  {
    if sorted == [] then [x]
    else
      HeadBefore(keys, sorted);
      if keys[sorted[0]] <= keys[x] then
        ConsOrdered(keys, x, sorted);
        [x] + sorted
      else
        assert Ordered(keys, sorted[1..]);
        assert forall y :: y in sorted[1..] ==> y in sorted;
        var rest := InsertPosition(keys, x, sorted[1..]);
        ConsOrdered(keys, sorted[0], rest);
        [sorted[0]] + rest
  }

  /** Positions from..|keys|-1 in stable descending order of key (an insertion sort). */
  function SortPositions(keys: seq<int>, from: nat): (r: seq<nat>)
    requires from <= |keys|
    ensures |r| == |keys| - from
    ensures forall y :: y in r <==> from <= y < |keys|
    ensures Ordered(keys, r)
    decreases |keys| - from
  {
    if from == |keys| then [] else InsertPosition(keys, from, SortPositions(keys, from + 1))
  }

  /**
   * `sortedByDescending { takings }`: the catalog positions, each once, by
   * descending takings, catalog order kept among equal takings.
   */
  function ReportOrder(ds: seq<Destination>, takings: Takings): (r: seq<nat>)
    ensures |r| == |ds|
    ensures forall i :: 0 <= i < |ds| <==> i in r
    ensures forall k :: 0 <= k < |r| ==> r[k] < |ds|
    ensures forall a, b :: 0 <= a < b < |r| ==>
      var ta := TakingsFor(takings, ds[r[a]].stationName);
      var tb := TakingsFor(takings, ds[r[b]].stationName);
      ta > tb || (ta == tb && r[a] < r[b])
  {
    var keys := TakingsKeys(ds, takings);
    var r := SortPositions(keys, 0);
    assert forall a, b :: 0 <= a < b < |r| ==> Before(keys, r[a], r[b]);
    r
  }

  /** The report's list: the first five destinations in report order, takings never increasing. */
  function RevenueReport(ds: seq<Destination>, takings: Takings): (r: seq<Destination>)
    ensures |r| == if |ds| < 5 then |ds| else 5
    ensures forall k :: 0 <= k < |r| ==> r[k] == ds[ReportOrder(ds, takings)[k]]
    ensures forall a, b :: 0 <= a < b < |r| ==>
      TakingsFor(takings, r[a].stationName) >= TakingsFor(takings, r[b].stationName)
  {
    var order := ReportOrder(ds, takings);
    var n := if |ds| < 5 then |ds| else 5;
    seq(n, k requires 0 <= k < n => ds[order[k]])
  }

  // --------------------------------------------------------------- service

  class AdminService {
    const machine: TicketMachine

    constructor (machine: TicketMachine)
      ensures this.machine == machine
    {
      this.machine := machine;
    }

    /** `addDestination`: validates the operator's input, then appends with takings reset to 0. */
    method AddDestination(rawName: string, single: Option<int>, ret: Option<int>, confirmLowReturn: bool)
      returns (r: Result<Destination, AddError>)
      modifies machine
      ensures r == CheckNewDestination(old(machine.destinations), rawName, single, ret, confirmLowReturn)
      ensures r.Ok? ==> machine.destinations == old(machine.destinations) + [r.value]
      ensures r.Ok? ==> machine.stationTakings == old(machine.stationTakings)[r.value.stationName := 0]
      ensures r.Err? ==> machine.destinations == old(machine.destinations) && machine.stationTakings == old(machine.stationTakings)
      ensures machine.specialOffers == old(machine.specialOffers)
    {
      r := CheckNewDestination(machine.destinations, rawName, single, ret, confirmLowReturn);
      if r.Ok? {
        machine.AddDestination(r.value);
      }
    }

    method UpdateStationName(index: nat, rawName: string)
      requires index < |machine.destinations|
      modifies machine
      ensures machine.destinations == Rename(old(machine.destinations), index, rawName)
      ensures machine.stationTakings == old(machine.stationTakings) && machine.specialOffers == old(machine.specialOffers)
    {
      var newName := Trim(rawName);
      var destination := machine.destinations[index];
      if newName != [] && newName != destination.stationName && !NameTakenByOther(machine.destinations, index, newName) {
        machine.destinations := machine.destinations[index := destination.(stationName := newName)];
      }
    }

    method UpdateSinglePrice(index: nat, newPrice: Option<int>)
      requires index < |machine.destinations|
      modifies machine
      ensures machine.destinations == SetSingle(old(machine.destinations), index, newPrice)
      ensures machine.stationTakings == old(machine.stationTakings) && machine.specialOffers == old(machine.specialOffers)
    {
      if newPrice.Some? && newPrice.value > 0 {
        var destination := machine.destinations[index];
        machine.destinations := machine.destinations[index := destination.(singlePrice := newPrice.value)];
      }
    }

    method UpdateReturnPrice(index: nat, newPrice: Option<int>)
      requires index < |machine.destinations|
      modifies machine
      ensures machine.destinations == SetReturn(old(machine.destinations), index, newPrice)
      ensures machine.stationTakings == old(machine.stationTakings) && machine.specialOffers == old(machine.specialOffers)
    {
      if newPrice.Some? && newPrice.value > 0 {
        var destination := machine.destinations[index];
        machine.destinations := machine.destinations[index := destination.(returnPrice := newPrice.value)];
      }
    }

    /** `updateDestination`: destination number `choice` (1-based), then a menu option. */
    method UpdateDestination(choice: int, option: int, rawName: string, single: Option<int>, ret: Option<int>)
      modifies machine
      ensures machine.destinations ==
        if 1 <= choice <= |old(machine.destinations)| then UpdateChoice(old(machine.destinations), choice - 1, option, rawName, single, ret)
        else old(machine.destinations)
      ensures machine.stationTakings == old(machine.stationTakings) && machine.specialOffers == old(machine.specialOffers)
    {
      if !(1 <= choice <= |machine.destinations|) {
        return;
      }
      machine.destinations := UpdateChoice(machine.destinations, choice - 1, option, rawName, single, ret);
    }

    /**
     * `adjustAllPrices`: on an empty catalog, an unknown option, a factor of
     * 0 or below, or no confirmation nothing changes; otherwise every
     * destination's prices are scaled and the count of updated destinations
     * is the catalog size.
     */
    method AdjustAllPrices(option: int, percent: int, confirm: bool) returns (updated: int)
      modifies machine
      ensures var factor := SelectFactor(option, percent);
        if |old(machine.destinations)| > 0 && factor.Some? && confirm then
          machine.destinations == ScaleAll(old(machine.destinations), factor.value) && updated == |machine.destinations|
        else
          machine.destinations == old(machine.destinations) && updated == 0
      ensures machine.stationTakings == old(machine.stationTakings) && machine.specialOffers == old(machine.specialOffers)
    {
      if |machine.destinations| == 0 {
        return 0;
      }
      var factor := SelectFactor(option, percent);
      if factor.None? || !confirm {
        return 0;
      }
      var f := factor.value;
      updated := 0;
      var i := 0;
      while i < |machine.destinations|
        invariant |machine.destinations| == |old(machine.destinations)|
        invariant 0 <= i <= |machine.destinations|
        invariant updated == i
        invariant forall k :: 0 <= k < i ==> machine.destinations[k] == Scaled(old(machine.destinations)[k], f)
        invariant forall k :: i <= k < |machine.destinations| ==> machine.destinations[k] == old(machine.destinations)[k]
        invariant machine.stationTakings == old(machine.stationTakings) && machine.specialOffers == old(machine.specialOffers)
        modifies machine
      {
        var destination := machine.destinations[i];
        machine.destinations := machine.destinations[i := Scaled(destination, f)];
        updated := updated + 1;
        i := i + 1;
      }
      assert machine.destinations == ScaleAll(old(machine.destinations), f);
    }

    /** `generateRevenueReport`: the destinations it lists, in order. */
    function GenerateRevenueReport(): (r: seq<Destination>)
      reads machine
      ensures |r| <= 5 && |r| <= |machine.destinations|
      ensures forall d :: d in r ==> d in machine.destinations
      ensures forall a, b :: 0 <= a < b < |r| ==>
        TakingsFor(machine.stationTakings, r[a].stationName) >= TakingsFor(machine.stationTakings, r[b].stationName)
    {
      RevenueReport(machine.destinations, machine.stationTakings)
    }
  }
}
