/** The thumbnail benchmark's sampling: evenly spread files, and percentiles by nearest rank. Fractions are
    exact here. */
module Sampling {
  /** `Math.round` */
  function Round(x: real): int {
    (x + 0.5).Floor
  }

  function Ceiling(x: real): int {
    -(-x).Floor
  }

  // ---------------------------------------------------------------------------------------------
  // Even sampling
  // ---------------------------------------------------------------------------------------------

  /** The exact position of sample `i`. */
  function Ideal(i: nat, n: nat, limit: nat): real
    requires limit > 1
  {
    (i * (n - 1)) as real / (limit - 1) as real
  }

  function SourceIndex(i: nat, n: nat, limit: nat): int
    requires limit > 1
  {
    Round(Ideal(i, n, limit))
  }

  /** evenlySample */
  method EvenlySample<T>(values: seq<T>, limit: int) returns (sample: seq<T>)
    ensures |values| <= limit ==> sample == values
    ensures limit < |values| && limit <= 0 ==> sample == []
    ensures limit < |values| && limit == 1 ==> sample == [values[0]]
    ensures 1 < limit < |values| ==>
              |sample| == limit
              && forall i :: 0 <= i < limit ==>
                   && 0 <= SourceIndex(i, |values|, limit) < |values|
                   && sample[i] == values[SourceIndex(i, |values|, limit)]
  {
    if |values| <= limit { return values; }
    if limit == 1 { return [values[0]]; }
    sample := [];
    var index := 0;
    while index < limit
      invariant limit <= 0 ==> index == 0
      invariant limit > 1 ==> 0 <= index <= limit && |sample| == index
      invariant limit <= 0 ==> sample == []
      invariant limit > 1 ==> forall i :: 0 <= i < index ==>
                  && 0 <= SourceIndex(i, |values|, limit) < |values|
                  && sample[i] == values[SourceIndex(i, |values|, limit)]
    {
      InRange(index, |values|, limit);
      var sourceIndex := SourceIndex(index, |values|, limit);
      sample := sample + [values[sourceIndex]];
      index := index + 1;
    }
  }

  lemma IdealStep(i: nat, n: nat, limit: nat)
    requires limit > 1 && n > 0
    ensures Ideal(i + 1, n, limit) == Ideal(i, n, limit) + (n - 1) as real / (limit - 1) as real
  {
    var d := (limit - 1) as real;
    assert (i + 1) * (n - 1) == i * (n - 1) + (n - 1);
    assert ((i + 1) * (n - 1)) as real == (i * (n - 1)) as real + (n - 1) as real;
  }

  lemma IdealEnds(n: nat, limit: nat)
    requires limit > 1 && n > 0
    ensures Ideal(0, n, limit) == 0.0 && Ideal(limit - 1, n, limit) == (n - 1) as real
  {
    assert ((limit - 1) * (n - 1)) as real == (limit - 1) as real * (n - 1) as real;
  }

  lemma {:induction false} IdealGrows(i: nat, j: nat, n: nat, limit: nat)
    requires limit > 1 && n > 0 && i <= j
    ensures Ideal(i, n, limit) <= Ideal(j, n, limit)
    decreases j - i
  {
    if i < j {
      IdealStep(i, n, limit);
      IdealGrows(i + 1, j, n, limit);
    }
  }

  lemma InRange(i: nat, n: nat, limit: nat)
    requires limit > 1 && i < limit && n > 0
    ensures 0 <= SourceIndex(i, n, limit) < n
  {
    IdealEnds(n, limit);
    IdealGrows(0, i, n, limit);
    IdealGrows(i, limit - 1, n, limit);
  }

  /** Adding a step to a number moves its floor by the floor or the ceiling of the step. */
  lemma FloorStep(x: real, step: real)
    ensures step.Floor <= (x + step).Floor - x.Floor <= Ceiling(step)
  {}

  /** The sample runs from the first file to the last, each file the nearest to its exact position, and
      consecutive files lie the floor or the ceiling of (n - 1) / (limit - 1) apart, never in the same place. */
  lemma EvenSpread(i: nat, n: nat, limit: nat)
    requires 1 < limit < n && i < limit
    ensures SourceIndex(0, n, limit) == 0 && SourceIndex(limit - 1, n, limit) == n - 1
    ensures -0.5 <= SourceIndex(i, n, limit) as real - Ideal(i, n, limit) <= 0.5
    ensures i + 1 < limit ==>
              var gap := SourceIndex(i + 1, n, limit) - SourceIndex(i, n, limit);
              var exact := (n - 1) as real / (limit - 1) as real;
              gap >= 1 && (gap == exact.Floor || gap == Ceiling(exact))
  {
    IdealEnds(n, limit);
    if i + 1 < limit {
      IdealStep(i, n, limit);
      var exact := (n - 1) as real / (limit - 1) as real;
      FloorStep(Ideal(i, n, limit) + 0.5, exact);
      AtLeastOne(n, limit);
      assert Ideal(i + 1, n, limit) + 0.5 == Ideal(i, n, limit) + 0.5 + exact;
    }
  }

  lemma AtLeastOne(n: nat, limit: nat)
    requires 1 < limit < n
    ensures ((n - 1) as real / (limit - 1) as real) >= 1.0
  {
    var a, d := (n - 1) as real, (limit - 1) as real;
    assert a / d * d == a;
    Scaled(a / d, d);
  }

  lemma Scaled(q: real, d: real)
    requires d > 0.0
    ensures q < 1.0 ==> q * d < d
  {}

  // ---------------------------------------------------------------------------------------------
  // Percentiles
  // ---------------------------------------------------------------------------------------------

  function Rank(n: nat, fraction: real): int {
    Ceiling(n as real * fraction) - 1
  }

  /** percentile */
  function Percentile(sortedValues: seq<real>, fraction: real): real {
    var n := |sortedValues|;
    if n == 0 then 0.0
    else
      var rank := Rank(n, fraction);
      var index := if rank < 0 then 0 else if rank > n - 1 then n - 1 else rank;
      sortedValues[index]
  }

  ghost predicate Sorted(values: seq<real>) {
    forall i, j :: 0 <= i < j < |values| ==> values[i] <= values[j]
  }

  /** How many values are at most `v`. */
  function AtMost(values: seq<real>, v: real): nat {
    if values == [] then 0 else (if values[0] <= v then 1 else 0) + AtMost(values[1..], v)
  }

  /** How many values are less than `v`. */
  function LessThan(values: seq<real>, v: real): nat {
    if values == [] then 0 else (if values[0] < v then 1 else 0) + LessThan(values[1..], v)
  }

  lemma {:induction false} RankCounts(values: seq<real>, k: nat)
    requires Sorted(values) && k < |values|
    ensures AtMost(values, values[k]) >= k + 1 && LessThan(values, values[k]) <= k
  {
    if k == 0 {
      NoneLess(values, values[0]);
    } else {
      RankCounts(values[1..], k - 1);
    }
  }

  lemma {:induction false} NoneLess(values: seq<real>, v: real)
    requires forall i :: 0 <= i < |values| ==> v <= values[i]
    ensures LessThan(values, v) == 0
  {
    if values != [] { NoneLess(values[1..], v); }
  }

  lemma {:induction false} FewerBelow(values: seq<real>, w: real, v: real)
    requires w < v
    ensures AtMost(values, w) <= LessThan(values, v)
  {
    if values != [] { FewerBelow(values[1..], w, v); }
  }

  lemma RankInRange(n: nat, fraction: real) returns (rank: nat)
    requires n > 0 && 0.0 < fraction <= 1.0
    ensures rank == Rank(n, fraction) && rank < n
    ensures rank as real < n as real * fraction <= (rank + 1) as real
  {
    var size := n as real;
    assert 0.0 < size * fraction <= size * 1.0;
    rank := Rank(n, fraction);
  }

  lemma PercentileRank(values: seq<real>, fraction: real) returns (rank: nat)
    requires values != [] && 0.0 < fraction <= 1.0
    ensures rank < |values| && Percentile(values, fraction) == values[rank]
    ensures rank as real < |values| as real * fraction <= (rank + 1) as real
  {
    hide Rank;
    rank := RankInRange(|values|, fraction);
  }

  /** The percentile is one of the values: the least that reaches the fraction. At least n * f values are at
      or below it, fewer than n * f are below it, and no smaller number reaches n * f. */
  lemma NearestRank(values: seq<real>, fraction: real)
    requires Sorted(values) && values != [] && 0.0 < fraction <= 1.0
    ensures var v := Percentile(values, fraction);
            var share := |values| as real * fraction;
            v in values && AtMost(values, v) as real >= share && LessThan(values, v) as real < share
            && forall w :: w < v ==> AtMost(values, w) as real < share
  {
    hide Percentile, AtMost, LessThan;
    var rank := PercentileRank(values, fraction);
    RankCounts(values, rank);
    forall w | w < values[rank] ensures AtMost(values, w) as real < |values| as real * fraction {
      FewerBelow(values, w, values[rank]);
    }
  }

  /** Fractions outside (0, 1] give the least and the greatest value. */
  lemma ClampedRank(values: seq<real>, fraction: real)
    requires Sorted(values) && values != [] && !(0.0 < fraction <= 1.0)
    ensures Percentile(values, fraction) == if fraction <= 0.0 then values[0] else values[|values| - 1]
  {
    var n := |values| as real;
    if fraction <= 0.0 { assert n * fraction <= 0.0; } else { assert n * fraction > n; }
  }
}
