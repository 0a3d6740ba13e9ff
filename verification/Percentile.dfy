/**
 `percentile` of efficiency/metrics.py over the reals: linear interpolation between the two samples around
 position quantile * (n - 1) of the sorted list.
 */
module Percentile {
  import opened Wrappers
  import opened Sorting

  datatype Error = BadArguments

  predicate RealLe(a: real, b: real) { a <= b }

  /** The interpolation at a position of a nonempty list. */
  function Interpolate(ordered: seq<real>, position: real): real
    requires 0.0 <= position <= (|ordered| - 1) as real
  {
    var lower := position.Floor;
    var upper := if lower + 1 <= |ordered| - 1 then lower + 1 else |ordered| - 1;
    var weight := position - lower as real;
    ordered[lower] * (1.0 - weight) + ordered[upper] * weight
  }

  /** The position `quantile * (n - 1)`. */
  function Position(n: int, quantile: real): real { quantile * (n - 1) as real }

  lemma PositionOrder(n: int, p: real, q: real)
    requires n >= 1 && 0.0 <= p <= q <= 1.0
    ensures 0.0 <= Position(n, p) <= Position(n, q) <= (n - 1) as real
  {
    var m := (n - 1) as real;
    Product(p, m);
    Product(q - p, m);
    Product(1.0 - q, m);
  }

  function Percentile(values: seq<real>, quantile: real): Result<real, Error> {
    if values == [] || !(0.0 <= quantile <= 1.0) then Err(BadArguments)
    else
      PositionOrder(|values|, 0.0, quantile);
      PositionOrder(|values|, quantile, 1.0);
      Ok(Interpolate(Sort(RealLe, values), Position(|values|, quantile)))
  }

  lemma Product(x: real, y: real)
    requires x >= 0.0 && y >= 0.0
    ensures x * y >= 0.0
  {
  }

  /** A weighted mean of two ordered values lies between them and grows with the weight. */
  lemma Between(a: real, b: real, w: real)
    requires a <= b && 0.0 <= w <= 1.0
    ensures a <= a * (1.0 - w) + b * w <= b
  {
    Product(w, b - a);
    Product(1.0 - w, b - a);
    assert a * (1.0 - w) + b * w == a + w * (b - a);
    assert a * (1.0 - w) + b * w == b - (1.0 - w) * (b - a);
  }

  lemma WeightOrder(a: real, b: real, v: real, w: real)
    requires a <= b && 0.0 <= v <= w <= 1.0
    ensures a * (1.0 - v) + b * v <= a * (1.0 - w) + b * w
  {
    Product(w - v, b - a);
    assert a * (1.0 - w) + b * w - (a * (1.0 - v) + b * v) == (w - v) * (b - a);
  }

  lemma Bounds(ordered: seq<real>, position: real)
    requires Sorted(RealLe, ordered) && 0.0 <= position <= (|ordered| - 1) as real
    ensures var lower := position.Floor;
            && ordered[lower] <= Interpolate(ordered, position)
            && (lower + 1 < |ordered| ==> Interpolate(ordered, position) <= ordered[lower + 1])
            && (lower + 1 == |ordered| ==> Interpolate(ordered, position) == ordered[lower])
  {
    var lower := position.Floor;
    var upper := if lower + 1 <= |ordered| - 1 then lower + 1 else |ordered| - 1;
    assert lower < upper ==> RealLe(ordered[lower], ordered[upper]);
    Between(ordered[lower], ordered[upper], position - lower as real);
  }

  lemma InterpolateMonotone(ordered: seq<real>, p: real, q: real)
    requires Sorted(RealLe, ordered) && 0.0 <= p <= q <= (|ordered| - 1) as real
    ensures Interpolate(ordered, p) <= Interpolate(ordered, q)
  {
    var i, j := p.Floor, q.Floor;
    if i == j {
      var upper := if i + 1 <= |ordered| - 1 then i + 1 else |ordered| - 1;
      assert i < upper ==> RealLe(ordered[i], ordered[upper]);
      WeightOrder(ordered[i], ordered[upper], p - i as real, q - i as real);
    } else {
      Bounds(ordered, p);
      Bounds(ordered, q);
      assert i + 1 == j || RealLe(ordered[i + 1], ordered[j]);
    }
  }

  lemma Ordered(values: seq<real>)
    ensures Sorted(RealLe, Sort(RealLe, values))
    ensures multiset(Sort(RealLe, values)) == multiset(values)
  {
    assert TotalPreorder(RealLe);
    SortSorted(RealLe, values);
    SortPermutation(RealLe, values);
  }

  /** A higher quantile never gives a lower value. */
  lemma QuantileMonotone(values: seq<real>, p: real, q: real)
    requires values != [] && 0.0 <= p <= q <= 1.0
    ensures Percentile(values, p).Ok? && Percentile(values, q).Ok?
    ensures Percentile(values, p).value <= Percentile(values, q).value
  {
    Ordered(values);
    PositionOrder(|values|, p, q);
    InterpolateMonotone(Sort(RealLe, values), Position(|values|, p), Position(|values|, q));
  }

  lemma PositionEnds(n: int)
    ensures Position(n, 0.0) == 0.0 && Position(n, 1.0) == (n - 1) as real
  {
  }

  lemma InterpolateAt(ordered: seq<real>, k: nat)
    requires k < |ordered|
    ensures Interpolate(ordered, k as real) == ordered[k]
  {
    var p := k as real;
    assert p.Floor == k && p - k as real == 0.0;
    var upper := if k + 1 <= |ordered| - 1 then k + 1 else |ordered| - 1;
    WeightZero(ordered[k], ordered[upper]);
  }

  /** Between two neighbouring positions the value moves from one sample to the next in proportion. */
  lemma InterpolateBetween(ordered: seq<real>, k: nat, w: real)
    requires k + 1 < |ordered| && 0.0 <= w <= 1.0
    ensures Interpolate(ordered, k as real + w) == (1.0 - w) * ordered[k] + w * ordered[k + 1]
  {
    if w == 1.0 {
      assert k as real + w == (k + 1) as real;
      InterpolateAt(ordered, k + 1);
    } else {
      var p := k as real + w;
      assert p.Floor == k && p - k as real == w;
    }
  }

  lemma WeightZero(a: real, b: real)
    ensures a * (1.0 - 0.0) + b * 0.0 == a
  {
  }

  lemma AtEnds(values: seq<real>)
    requires values != []
    ensures Percentile(values, 0.0) == Ok(Sort(RealLe, values)[0])
    ensures Percentile(values, 1.0) == Ok(Sort(RealLe, values)[|values| - 1])
  {
    PositionEnds(|values|);
    InterpolateAt(Sort(RealLe, values), 0);
    InterpolateAt(Sort(RealLe, values), |values| - 1);
  }

  /**
   Whatever list holds the samples in rising order: at `k` and a share `w` of the way through the `n - 1` gaps between
   neighbours, the value is that share of the way from sample `k` to sample `k + 1`.
   */
  lemma PercentileExact(values: seq<real>, q: real, ordered: seq<real>, k: nat, w: real)
    requires multiset(ordered) == multiset(values) && forall i, j :: 0 <= i < j < |ordered| ==> ordered[i] <= ordered[j]
    requires k + 1 < |ordered| && 0.0 <= w <= 1.0 && 0.0 <= q <= 1.0 && q * (|values| - 1) as real == k as real + w
    ensures |ordered| == |values| && Percentile(values, q) == Ok((1.0 - w) * ordered[k] + w * ordered[k + 1])
  {
    SameMembers(ordered, values);
    Ordered(values);
    assert Sorted(RealLe, ordered);
    SortedUnique(RealLe, Sort(RealLe, values), ordered);
    InterpolateBetween(ordered, k, w);
  }

  lemma EndsBound(values: seq<real>, ordered: seq<real>)
    requires values != [] && Sorted(RealLe, ordered) && multiset(ordered) == multiset(values)
    ensures |ordered| == |values| && ordered[0] in values && ordered[|values| - 1] in values
    ensures forall i :: 0 <= i < |values| ==> ordered[0] <= values[i] <= ordered[|values| - 1]
  {
    SameMembers(ordered, values);
    assert ordered[0] in ordered && ordered[|values| - 1] in ordered;
    forall i | 0 <= i < |values| ensures ordered[0] <= values[i] <= ordered[|values| - 1] {
      assert values[i] in ordered;
      var j :| 0 <= j < |ordered| && ordered[j] == values[i];
      assert j == 0 || RealLe(ordered[0], ordered[j]);
      assert j == |values| - 1 || RealLe(ordered[j], ordered[|values| - 1]);
    }
  }

  /** The value at 0 is a least sample, the value at 1 a greatest, and every value lies between. */
  lemma Extremes(values: seq<real>, q: real)
    requires values != [] && 0.0 <= q <= 1.0
    ensures Percentile(values, 0.0).Ok? && Percentile(values, 1.0).Ok? && Percentile(values, q).Ok?
    ensures var low, high := Percentile(values, 0.0).value, Percentile(values, 1.0).value;
            && low in values && high in values
            && (forall i :: 0 <= i < |values| ==> low <= values[i] <= high)
            && low <= Percentile(values, q).value <= high
  {
    AtEnds(values);
    Ordered(values);
    EndsBound(values, Sort(RealLe, values));
    QuantileMonotone(values, 0.0, q);
    QuantileMonotone(values, q, 1.0);
  }

  /** The order of the samples does not matter. */
  lemma OrderIrrelevant(values: seq<real>, other: seq<real>, q: real)
    requires multiset(values) == multiset(other)
    ensures Percentile(values, q) == Percentile(other, q)
  {
    SameMembers(values, other);
    Ordered(values);
    assert TotalPreorder(RealLe);
    SortCanonical(RealLe, values, other);
  }
}
