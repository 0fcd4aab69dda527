/** The work of one task: walk a contiguous range of sample indices and count
    the quasi-random points that fall inside the unit disc. Whether sample `i`
    is inside is the deterministic predicate `inside`, standing for the Halton
    point test of the experiment. */
module Counting {
  import opened Common

  /** Number of indices `i` in `[lo, lo + n)` with `inside(i)`, counted from the
      last index down. */
  function CountInside(inside: nat -> bool, lo: nat, n: nat): (c: nat)
    ensures c <= n
    decreases n
  {
    if n == 0 then 0
    else CountInside(inside, lo, n - 1) + (if inside(lo + n - 1) then 1 else 0)
  }

  /** The indices of `[lo, lo + n)` whose point lies inside the disc. */
  ghost function InsideSet(inside: nat -> bool, lo: nat, n: nat): set<nat>
  {
    set i: nat | lo <= i < lo + n && inside(i)
  }

  /** The count is the size of the set of inside indices of the range. */
  lemma {:induction false} CountIsCardinality(inside: nat -> bool, lo: nat, n: nat)
    ensures CountInside(inside, lo, n) == |InsideSet(inside, lo, n)|
    decreases n
  {
    if n == 0 {
      assert InsideSet(inside, lo, 0) == {};
    } else {
      CountIsCardinality(inside, lo, n - 1);
      var last := lo + n - 1;
      assert last !in InsideSet(inside, lo, n - 1);
      if inside(last) {
        assert InsideSet(inside, lo, n) == InsideSet(inside, lo, n - 1) + {last};
      } else {
        assert InsideSet(inside, lo, n) == InsideSet(inside, lo, n - 1);
      }
    }
  }

  /** Counting is additive: a range split in two counts as its two parts. */
  lemma {:induction false} CountSplit(inside: nat -> bool, lo: nat, a: nat, b: nat)
    ensures CountInside(inside, lo, a + b) == CountInside(inside, lo, a) + CountInside(inside, lo + a, b)
    decreases b
  {
    if b > 0 {
      CountSplit(inside, lo, a, b - 1);
    }
  }

  /** The counting loop of `getMonteCarloApproximationOfPi`: `visited` records the
      index of every iteration. */
  method CountPointsInside(inside: nat -> bool, indexStart: nat, numberOfSimulations: nat)
    returns (numberOfPointsInsideUnitCircle: nat, ghost visited: seq<nat>)
    ensures numberOfPointsInsideUnitCircle == CountInside(inside, indexStart, numberOfSimulations)
    ensures numberOfPointsInsideUnitCircle <= numberOfSimulations
    ensures |visited| == numberOfSimulations
    ensures forall k :: 0 <= k < |visited| ==> visited[k] == indexStart + k
  {
    numberOfPointsInsideUnitCircle := 0;
    visited := [];
    var i := indexStart;
    while i < indexStart + numberOfSimulations
      invariant indexStart <= i <= indexStart + numberOfSimulations
      invariant numberOfPointsInsideUnitCircle == CountInside(inside, indexStart, i - indexStart)
      invariant |visited| == i - indexStart
      invariant forall k :: 0 <= k < |visited| ==> visited[k] == indexStart + k
      decreases indexStart + numberOfSimulations - i
    {
      if inside(i) {
        numberOfPointsInsideUnitCircle := numberOfPointsInsideUnitCircle + 1;
      }
      visited := visited + [i];
      i := i + 1;
    }
  }

  /** `getMonteCarloApproximationOfPi(indexStart, numberOfSimulations)`: four times
      the share of inside points of the range, NaN for an empty range. */
  method ApproximationOfPi(inside: nat -> bool, indexStart: nat, numberOfSimulations: nat)
    returns (pi: Approx)
    ensures pi == Ratio(CountInside(inside, indexStart, numberOfSimulations), numberOfSimulations)
    ensures pi.NaN? <==> numberOfSimulations == 0
    ensures pi.Num? ==> 0.0 <= pi.value <= 4.0
  {
    var numberOfPointsInsideUnitCircle, _ := CountPointsInside(inside, indexStart, numberOfSimulations);
    pi := Ratio(numberOfPointsInsideUnitCircle, numberOfSimulations);
  }
}
