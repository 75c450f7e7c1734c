/**
 * The machine's revenue ledger: a map from station name to takings in pence.
 * A station that was never recorded reads as 0, and the total is the sum of
 * all entries.
 */
module Ledger {

  type Takings = map<string, int>

  /** `stationTakings[station] ?: 0` */
  function TakingsFor(m: Takings, station: string): int {
    if station in m then m[station] else 0
  }

  /** `stationTakings[station] = (stationTakings[station] ?: 0) + amount` */
  function Credit(m: Takings, station: string, amount: int): (r: Takings)
    ensures r.Keys == m.Keys + {station}
    ensures TakingsFor(r, station) == TakingsFor(m, station) + amount
    ensures forall other :: other != station ==> TakingsFor(r, other) == TakingsFor(m, other)
  {
    m[station := TakingsFor(m, station) + amount]
  }

  /** Every entry of the ledger is non-negative. */
  ghost predicate NonNegative(m: Takings) {
    forall s :: s in m ==> m[s] >= 0
  }

  /** Some key of a non-empty map, chosen once and for all. */
  ghost function Pick(m: Takings): (k: string)
    requires m != map[]
    ensures k in m
  {
    var k :| k in m; k
  }

  lemma RemoveShrinks(m: Takings, k: string)
    requires k in m
    ensures |m - {k}| == |m| - 1
  {
    assert (m - {k}).Keys == m.Keys - {k};
  }

  /** The sum of all entries of the ledger: the reference for `getTotalTakings`. */
  ghost function Total(m: Takings): int
    decreases |m|
  {
    if m == map[] then 0
    else
      var k := Pick(m);
      RemoveShrinks(m, k);
      m[k] + Total(m - {k})
  }

  /** The sum does not depend on which entry is taken out first. */
  lemma {:induction false} TotalRemove(m: Takings, k: string)
    requires k in m
    ensures Total(m) == m[k] + Total(m - {k})
    decreases |m|
  {
    var j := Pick(m);
    if j != k {
      RemoveShrinks(m, j);
      RemoveShrinks(m, k);
      TotalRemove(m - {j}, k);
      TotalRemove(m - {k}, j);
      assert m - {j} - {k} == m - {k} - {j};
    }
  }

  /** Crediting a station raises the total by exactly the amount credited. */
  lemma TotalCredit(m: Takings, station: string, amount: int)
    ensures Total(Credit(m, station, amount)) == Total(m) + amount
  {
    var r := Credit(m, station, amount);
    TotalRemove(r, station);
    assert r - {station} == m - {station};
    if station in m {
      TotalRemove(m, station);
    } else {
      assert m - {station} == m;
    }
  }

  /** Resetting a station to 0 (as `addDestination` does) drops its takings from the total. */
  lemma TotalReset(m: Takings, station: string)
    ensures Total(m[station := 0]) == Total(m) - TakingsFor(m, station)
  {
    var r := m[station := 0];
    TotalRemove(r, station);
    assert r - {station} == m - {station};
    if station in m {
      TotalRemove(m, station);
    } else {
      assert m - {station} == m;
    }
  }

  /** A ledger of non-negative entries has a non-negative total. */
  lemma {:induction false} TotalNonNegative(m: Takings)
    requires NonNegative(m)
    ensures Total(m) >= 0
    decreases |m|
  {
    if m != map[] {
      var k := Pick(m);
      RemoveShrinks(m, k);
      TotalNonNegative(m - {k});
    }
  }

  /** A ledger whose entries are all 0 has total 0 (the state after start-up). */
  lemma {:induction false} TotalAllZero(m: Takings)
    requires forall s :: s in m ==> m[s] == 0
    ensures Total(m) == 0
    decreases |m|
  {
    if m != map[] {
      var k := Pick(m);
      RemoveShrinks(m, k);
      TotalAllZero(m - {k});
    }
  }

  /** With non-negative entries, no single station holds more than the total. */
  lemma TakingsAtMostTotal(m: Takings, station: string)
    requires NonNegative(m)
    ensures 0 <= TakingsFor(m, station) <= Total(m)
  {
    if station in m {
      TotalRemove(m, station);
      TotalNonNegative(m - {station});
    } else {
      TotalNonNegative(m);
    }
  }
}
