/**
 The benchmark's samplers: a table of cumulative weights, normalised in place,
 and a search of it for a draw. Reals stand for the doubles.
 */
module Samplers {
  /** The weights before `k`, together. */
  function Prefix(weights: seq<real>, k: nat): real
    requires k <= |weights|
  {
    if k == 0 then 0.0 else Prefix(weights, k - 1) + weights[k - 1]
  }

  function Sum(weights: seq<real>): real { Prefix(weights, |weights|) }

  /** Weights to sample by. */
  ghost predicate Weighs(weights: seq<real>) {
    (forall i :: 0 <= i < |weights| ==> weights[i] >= 0.0) && (weights != [] ==> Sum(weights) > 0.0)
  }

  /** The share of the weights up to and with each. */
  ghost predicate IsTable(cdf: seq<real>, weights: seq<real>) {
    && |cdf| == |weights| && Weighs(weights)
    && forall i :: 0 <= i < |cdf| ==> IsShare(cdf[i], weights, i + 1, Sum(weights))
  }

  predicate IsShare(share: real, weights: seq<real>, k: nat, sum: real)
    requires k <= |weights|
  {
    sum > 0.0 && share == Prefix(weights, k) / sum
  }

  lemma {:induction false} PrefixGrows(weights: seq<real>, i: nat, j: nat)
    requires i <= j <= |weights| && forall k :: 0 <= k < |weights| ==> weights[k] >= 0.0
    ensures Prefix(weights, i) <= Prefix(weights, j)
  {
    if i == j {
    } else {
      PrefixGrows(weights, i, j - 1);
    }
  }

  lemma Shares(a: real, b: real, sum: real)
    requires sum > 0.0
    ensures a / sum + b / sum == (a + b) / sum
    ensures a <= b ==> a / sum <= b / sum
  {
  }

  /** The table rises, ends at one, and steps by each weight's share. */
  lemma TableRises(cdf: seq<real>, weights: seq<real>, i: nat)
    requires IsTable(cdf, weights) && i < |cdf|
    ensures forall j :: i <= j < |cdf| ==> cdf[i] <= cdf[j]
    ensures cdf[|cdf| - 1] == 1.0
    ensures cdf[i] - Below(cdf, i) == weights[i] / Sum(weights)
  {
    forall j | i <= j < |cdf| ensures cdf[i] <= cdf[j] {
      PrefixGrows(weights, i + 1, j + 1);
      Shares(Prefix(weights, i + 1), Prefix(weights, j + 1), Sum(weights));
    }
    Shares(Prefix(weights, i), weights[i], Sum(weights));
    Ends(Sum(weights));
  }

  lemma Ends(sum: real)
    requires sum > 0.0
    ensures sum / sum == 1.0 && 0.0 / sum == 0.0
  {
  }

  /** The entry before, or zero. */
  function Below(cdf: seq<real>, i: nat): real
    requires i <= |cdf|
  {
    if i == 0 then 0.0 else cdf[i - 1]
  }

  /** The rank a draw falls to. */
  predicate IsRank(cdf: seq<real>, u: real, i: nat) {
    i < |cdf| && (i == 0 || cdf[i - 1] < u) && (i == |cdf| - 1 || u <= cdf[i])
  }

  /** Every draw above zero and at most one falls to the one rank whose share it
      is in. */
  lemma RankIsTheShare(cdf: seq<real>, weights: seq<real>, u: real, i: nat)
    requires IsTable(cdf, weights) && i < |cdf| && 0.0 < u <= 1.0
    ensures IsRank(cdf, u, i) <==> Below(cdf, i) < u <= cdf[i]
  {
    TableRises(cdf, weights, i);
  }

  lemma NeverNegative(cdf: seq<real>, weights: seq<real>, i: nat)
    requires IsTable(cdf, weights) && i < |cdf|
    ensures cdf[i] >= 0.0
  {
    PrefixGrows(weights, 0, i + 1);
    Shares(0.0, Prefix(weights, i + 1), Sum(weights));
  }

  lemma OneRank(cdf: seq<real>, weights: seq<real>, u: real, i: nat, j: nat)
    requires IsTable(cdf, weights) && IsRank(cdf, u, i) && IsRank(cdf, u, j)
    ensures i == j
  {
    TableRises(cdf, weights, i);
    TableRises(cdf, weights, j);
  }

  // ---------------------------------------------------------------------
  // Filling the table
  // ---------------------------------------------------------------------

  /** `Zipf`'s table: running sums, each then divided by the last. */
  method FillThenDivide(cdf: array<real>, weights: seq<real>)
    requires cdf.Length == |weights| && Weighs(weights)
    modifies cdf
    ensures IsTable(cdf[..], weights)
  {
    var sum := 0.0;
    for i := 0 to cdf.Length
      invariant sum == Prefix(weights, i)
      invariant forall k :: 0 <= k < i ==> cdf[k] == Prefix(weights, k + 1)
    {
      sum := sum + weights[i];
      cdf[i] := sum;
    }
    for i := 0 to cdf.Length
      invariant forall k :: 0 <= k < i ==> IsShare(cdf[k], weights, k + 1, sum)
      invariant forall k :: i <= k < cdf.Length ==> cdf[k] == Prefix(weights, k + 1)
    {
      cdf[i] := cdf[i] / sum;
    }
  }

  lemma NextShare(weights: seq<real>, k: nat, sum: real)
    requires k < |weights| && sum > 0.0
    ensures Prefix(weights, k) / sum + weights[k] / sum == Prefix(weights, k + 1) / sum
  {
    Shares(Prefix(weights, k), weights[k], sum);
  }

  /** `TimeSampler`'s table: the weights themselves, each replaced by the shares
      so far. */
  method AccumulateShares(table: array<real>)
    requires Weighs(table[..])
    modifies table
    ensures IsTable(table[..], old(table[..]))
  {
    ghost var weights := table[..];
    var sum := Total(table);
    var acc := 0.0;
    if sum > 0.0 {
      Ends(sum);
    }
    for d := 0 to table.Length
      invariant sum > 0.0 ==> acc == Prefix(weights, d) / sum
      invariant forall k :: 0 <= k < d ==> IsShare(table[k], weights, k + 1, sum)
      invariant forall k :: d <= k < table.Length ==> table[k] == weights[k]
    {
      NextShare(weights, d, sum);
      acc := acc + table[d] / sum;
      table[d] := acc;
    }
  }

  method Total(table: array<real>) returns (sum: real)
    ensures sum == Sum(table[..])
  {
    sum := 0.0;
    for d := 0 to table.Length
      invariant sum == Prefix(table[..], d)
    {
      sum := sum + table[d];
    }
  }

  // ---------------------------------------------------------------------
  // Drawing from it
  // ---------------------------------------------------------------------

  /** The binary search of both samplers; an empty table gives rank zero. */
  method Search(cdf: array<real>, ghost weights: seq<real>, u: real) returns (rank: nat)
    requires IsTable(cdf[..], weights)
    ensures cdf.Length > 0 ==> IsRank(cdf[..], u, rank)
    ensures cdf.Length == 0 ==> rank == 0
  {
    var lo, hi := 0, cdf.Length - 1;
    while lo < hi
      invariant 0 <= lo && (cdf.Length > 0 ==> lo <= hi < cdf.Length) && (cdf.Length == 0 ==> lo == 0)
      invariant lo > 0 ==> cdf[lo - 1] < u
      invariant 0 <= hi < cdf.Length - 1 ==> u <= cdf[hi]
    {
      var mid := (lo + hi) / 2;
      if cdf[mid] < u {
        lo := mid + 1;
      } else {
        hi := mid;
      }
    }
    return lo;
  }

  /** The linear scan for the hour. */
  method Scan(cdf: array<real>, u: real) returns (rank: nat)
    requires cdf.Length > 0
    ensures IsRank(cdf[..], u, rank)
  {
    rank := 0;
    while rank < cdf.Length - 1 && cdf[rank] < u
      invariant rank < cdf.Length && (rank == 0 || cdf[rank - 1] < u)
    {
      rank := rank + 1;
    }
  }

  /** A draw in a weight's share of the unit interval gives its rank, and no
      other draw does; zero gives the first. */
  ghost predicate Draws(weights: seq<real>, u: real, rank: nat) {
    && rank < |weights| && Sum(weights) > 0.0
    && (u == 0.0 ==> rank == 0)
    && forall i :: 0 <= i < |weights| && u > 0.0 ==> (rank == i <==> InShare(weights, u, i))
  }

  ghost predicate InShare(weights: seq<real>, u: real, i: nat)
    requires i < |weights| && Sum(weights) > 0.0
  {
    Prefix(weights, i) / Sum(weights) < u <= Prefix(weights, i + 1) / Sum(weights)
  }

  lemma RankDraws(cdf: seq<real>, weights: seq<real>, u: real, rank: nat)
    requires IsTable(cdf, weights) && IsRank(cdf, u, rank) && 0.0 <= u <= 1.0
    ensures Draws(weights, u, rank)
  {
    if rank > 0 {
      NeverNegative(cdf, weights, rank - 1);
    }
    Ends(Sum(weights));
    forall i | 0 <= i < |weights| && u > 0.0 ensures rank == i <==> InShare(weights, u, i) {
      RankIsTheShare(cdf, weights, u, i);
      assert i > 0 ==> IsShare(cdf[i - 1], weights, i, Sum(weights));
      if IsRank(cdf, u, i) {
        OneRank(cdf, weights, u, rank, i);
      }
    }
  }

  /** `Zipf`, over its weights. */
  class Zipf {
    const cdf: array<real>
    ghost const weights: seq<real>

    ghost predicate Valid()
      reads cdf
    {
      IsTable(cdf[..], weights)
    }

    constructor (weights: seq<real>)
      requires Weighs(weights)
      ensures Valid() && this.weights == weights && fresh(cdf)
    {
      cdf := new real[|weights|];
      this.weights := weights;
      new;
      FillThenDivide(cdf, weights);
    }

    method Sample(u: real) returns (rank: nat)
      requires Valid() && 0.0 <= u < 1.0
      ensures if weights == [] then rank == 0 else Draws(weights, u, rank)
    {
      rank := Search(cdf, weights, u);
      if cdf.Length > 0 {
        RankDraws(cdf[..], weights, u, rank);
      }
    }
  }

  /** `TimeSampler`, over the weights of its days and hours. */
  class TimeSampler {
    const dayTable: array<real>
    const hourTable: array<real>
    ghost const days: seq<real>
    ghost const hours: seq<real>

    ghost predicate Valid()
      reads dayTable, hourTable
    {
      IsTable(dayTable[..], days) && IsTable(hourTable[..], hours) && |hours| == 24
    }

    constructor (days: seq<real>, hours: seq<real>)
      requires Weighs(days) && Weighs(hours) && |hours| == 24
      ensures Valid() && this.days == days && this.hours == hours && fresh(dayTable) && fresh(hourTable)
    {
      dayTable := new real[|days|](i requires 0 <= i < |days| => days[i]);
      hourTable := new real[24](i requires 0 <= i < 24 => hours[i]);
      this.days, this.hours := days, hours;
      new;
      assert dayTable[..] == days && hourTable[..] == hours;
      AccumulateShares(dayTable);
      assert hourTable[..] == hours;
      AccumulateShares(hourTable);
    }

    method Sample(u: real, uh: real) returns (daysBefore: nat, hour: nat)
      requires Valid() && 0.0 <= u < 1.0 && 0.0 <= uh < 1.0
      ensures if days == [] then daysBefore == 0 else Draws(days, u, daysBefore)
      ensures Draws(hours, uh, hour)
    {
      daysBefore := Search(dayTable, days, u);
      if dayTable.Length > 0 {
        RankDraws(dayTable[..], days, u, daysBefore);
      }
      hour := Scan(hourTable, uh);
      RankDraws(hourTable[..], hours, uh, hour);
    }
  }
}
