/** The 95th percentile as pg_writer.py and routePerformance.ts each compute it, over the reals. */
module Percentile {

  predicate Ascending(values: seq<real>) {
    forall i, j :: 0 <= i < j < |values| ==> values[i] <= values[j]
  }

  function FloatIndex(n: nat): real {
    0.95 * (n as real)
  }

  function Between(low: real, high: real, weight: real): real {
    low * (1.0 - weight) + high * weight
  }

  /** _compute_p95: the upper neighbour is one up, clamped to the last. */
  function ComputeP95(values: seq<real>): real {
    if values == [] then 0.0
    else if |values| == 1 then values[0]
    else
      var last := |values| - 1;
      var index := FloatIndex(last);
      var lower := if index.Floor < 0 then 0 else index.Floor;
      IndexInRange(last);
      var upper := if lower + 1 < last then lower + 1 else last;
      Between(values[lower], values[upper], index - lower as real)
  }

  function Ceil(x: real): int {
    -((-x).Floor)
  }

  /** computeP95: the upper neighbour is the index rounded up. */
  function ComputeP95Ts(values: seq<real>): real {
    if values == [] then 0.0
    else if |values| == 1 then values[0]
    else
      var last := |values| - 1;
      var index := FloatIndex(last);
      var lower := if index.Floor < 0 then 0 else index.Floor;
      IndexInRange(last);
      var upper := if Ceil(index) < last then Ceil(index) else last;
      Between(values[lower], values[upper], index - lower as real)
  }

  lemma IndexInRange(n: nat)
    requires n > 0
    ensures 0 <= FloatIndex(n).Floor < n && FloatIndex(n).Floor <= Ceil(FloatIndex(n)) <= n
    ensures Ceil(FloatIndex(n)) == FloatIndex(n).Floor + 1 || FloatIndex(n) == FloatIndex(n).Floor as real
  {
  }

  /** The two programs agree on every list, though they pick the upper neighbour differently. */
  lemma PercentilesAgree(values: seq<real>)
    ensures ComputeP95(values) == ComputeP95Ts(values)
  {
    if |values| > 1 {
      IndexInRange(|values| - 1);
    }
  }

  lemma ProductNotNegative(x: real, y: real)
    requires x >= 0.0 && y >= 0.0
    ensures x * y >= 0.0
  {
  }

  lemma BetweenIsBetween(low: real, high: real, weight: real)
    requires low <= high && 0.0 <= weight <= 1.0
    ensures low <= Between(low, high, weight) <= high
  {
    ProductNotNegative(high - low, weight);
    ProductNotNegative(high - low, 1.0 - weight);
    assert Between(low, high, weight) == low + (high - low) * weight == high - (high - low) * (1.0 - weight);
  }

  lemma BetweenGrows(low: real, high: real, low': real, high': real, weight: real)
    requires low <= low' && high <= high' && 0.0 <= weight <= 1.0
    ensures Between(low, high, weight) <= Between(low', high', weight)
  {
    ProductNotNegative(low' - low, 1.0 - weight);
    ProductNotNegative(high' - high, weight);
    assert Between(low', high', weight) - Between(low, high, weight) == (low' - low) * (1.0 - weight) + (high' - high) * weight;
  }

  /**
   It lies 95% of the way through the list: of its n - 1 steps k whole ones lie below, and it
   goes the rest of the 0.95 (n - 1) steps from the k-th value toward the next.
   */
  lemma PercentileIsBetweenNeighbours(values: seq<real>) returns (k: nat)
    requires |values| > 1
    ensures k + 1 < |values| && 100 * k <= 95 * (|values| - 1) < 100 * (k + 1)
    ensures 100.0 * (ComputeP95(values) - values[k])
            == (95 * (|values| - 1) - 100 * k) as real * (values[k + 1] - values[k])
    ensures Ascending(values) ==> values[k] <= ComputeP95(values) <= values[k + 1]
  {
    var index := FloatIndex(|values| - 1);
    IndexInRange(|values| - 1);
    k := index.Floor;
    assert 100.0 * index == (95 * (|values| - 1)) as real;
    assert ComputeP95(values) == Between(values[k], values[k + 1], index - k as real);
    GoesOn(values[k], values[k + 1], index - k as real, (95 * (|values| - 1) - 100 * k) as real);
    if Ascending(values) {
      BetweenIsBetween(values[k], values[k + 1], index - k as real);
    }
  }

  lemma GoesOn(low: real, high: real, weight: real, hundredths: real)
    requires hundredths == 100.0 * weight
    ensures 100.0 * (Between(low, high, weight) - low) == hundredths * (high - low)
  {
    assert Between(low, high, weight) - low == weight * (high - low);
    assert hundredths * (high - low) == 100.0 * (weight * (high - low));
  }

  /** Raising values never lowers it. */
  lemma PercentileIsMonotone(values: seq<real>, raised: seq<real>)
    requires |values| == |raised| && forall i :: 0 <= i < |values| ==> values[i] <= raised[i]
    ensures ComputeP95(values) <= ComputeP95(raised)
  {
    if |values| > 1 {
      var last := |values| - 1;
      IndexInRange(last);
      var lower := FloatIndex(last).Floor;
      var upper := if lower + 1 < last then lower + 1 else last;
      BetweenGrows(values[lower], values[upper], raised[lower], raised[upper], FloatIndex(last) - lower as real);
    }
  }
}
