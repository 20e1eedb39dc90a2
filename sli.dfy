/** What the backends hand back to the SLO engine: a (good, bad) pair of event counts or a
    single number, with NO_DATA as its own variant rather than a magic constant. */
module Sli {

  /** `(good, bad)`, or `(NO_DATA, NO_DATA)`. */
  datatype Counts = Pair(good: nat, bad: nat) | NoDataPair

  /** A counter total, or `NO_DATA`. */
  datatype EventCount = Events(total: real) | NoData

  /** `good_below_threshold` decides which bucket holds the good events. */
  function Ordered(below: nat, above: nat, goodBelowThreshold: bool): Counts {
    if goodBelowThreshold then Pair(below, above) else Pair(above, below)
  }

  function Swapped(c: Counts): Counts {
    if c.Pair? then Pair(c.bad, c.good) else c
  }

  /** `sum(xs)` */
  function Sum(xs: seq<real>): real
    decreases |xs|
  {
    if xs == [] then 0.0 else Sum(xs[..|xs| - 1]) + xs[|xs| - 1]
  }

  /** A sum of strictly positive numbers is zero exactly when there are none. */
  lemma {:induction false} SumOfPositives(xs: seq<real>)
    requires forall k :: 0 <= k < |xs| ==> xs[k] > 0.0
    ensures Sum(xs) >= 0.0
    ensures Sum(xs) == 0.0 <==> xs == []
    decreases |xs|
  {
    if xs != [] {
      SumOfPositives(xs[..|xs| - 1]);
    }
  }

  /** A sum of numbers in [lo, hi] lies in [|xs| * lo, |xs| * hi]. */
  lemma {:induction false} SumBetween(xs: seq<real>, lo: real, hi: real)
    requires forall k :: 0 <= k < |xs| ==> lo <= xs[k] <= hi
    ensures |xs| as real * lo <= Sum(xs) <= |xs| as real * hi
    decreases |xs|
  {
    if xs != [] {
      SumBetween(xs[..|xs| - 1], lo, hi);
    }
  }

  /** `sum(xs) / len(xs)` */
  function Mean(xs: seq<real>): real
    requires xs != []
  {
    Sum(xs) / |xs| as real
  }

  /** The mean of numbers in [lo, hi] lies in [lo, hi]. */
  lemma MeanBetween(xs: seq<real>, lo: real, hi: real)
    requires xs != [] && forall k :: 0 <= k < |xs| ==> lo <= xs[k] <= hi
    ensures lo <= Mean(xs) <= hi
  {
    SumBetween(xs, lo, hi);
    DivideBetween(Sum(xs), |xs| as real, lo, hi);
  }

  lemma DivideBetween(total: real, n: real, lo: real, hi: real)
    requires n > 0.0 && n * lo <= total <= n * hi
    ensures lo <= total / n <= hi
  {
  }
}
