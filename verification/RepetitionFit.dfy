/**
 `_fit_repetition_count` of ruler_vt/tasks.py: double until a prompt no longer fits, then bisect.
 `build` makes the payload of a repetition count and `measure` is its prompt length including the
 tokens to generate; neither is assumed to be monotone.
 */
module RepetitionFit {
  import opened Wrappers

  datatype Error = DoesNotFit(minimum: int, target: int)

  ghost function Pow2(k: nat): (r: nat)
    ensures r >= 1
  {
    if k == 0 then 1 else 2 * Pow2(k - 1)
  }

  ghost predicate Fits<P>(build: int -> P, measure: P -> int, target: int, count: int) {
    measure(build(count)) <= target
  }

  ghost predicate Monotone<P>(build: int -> P, measure: P -> int) {
    forall c, d :: 1 <= c <= d ==> measure(build(c)) <= measure(build(d))
  }

  lemma FirstFailure<P>(build: int -> P, measure: P -> int, target: int, c: int, d: int)
    requires Monotone(build, measure) && 1 <= c < d && !Fits(build, measure, target, c + 1)
    ensures !Fits(build, measure, target, d)
  {
    assert measure(build(c + 1)) <= measure(build(d));
  }

  /** The doubling loop: `upper` is the first power of two from 2 on that does not fit, `lower` the one before. */
  method Double<P>(build: int -> P, measure: P -> int, target: int, ghost k: nat) returns (lower: int, upper: int)
    requires k >= 1 && !Fits(build, measure, target, Pow2(k)) && Fits(build, measure, target, 1)
    ensures 1 <= lower && upper == 2 * lower
    ensures Fits(build, measure, target, lower) && !Fits(build, measure, target, upper)
    ensures upper <= Pow2(k)
  {
    lower, upper := 1, 2;
    ghost var i := 1;
    while measure(build(upper)) <= target
      invariant 1 <= i <= k && upper == Pow2(i) && upper == 2 * lower && lower >= 1
      invariant Fits(build, measure, target, lower)
      decreases k - i
    {
      lower := upper;
      upper := upper * 2;
      i := i + 1;
    }
    Pow2Grows(i, k);
  }

  lemma {:induction false} Pow2Grows(i: nat, k: nat)
    requires i <= k
    ensures Pow2(i) <= Pow2(k)
    decreases k
  {
    if i < k {
      Pow2Grows(i, k - 1);
    }
  }

  /**
   The search ends with a count that fits and whose successor does not, if only some power of two from 2
   on does not fit (the doubling loop needs just that). For a monotone length it is the largest count that fits.
   */
  method FitRepetitionCount<P>(build: int -> P, measure: P -> int, target: int, ghost k: nat)
    returns (r: Result<(P, int), Error>, ghost count: int)
    requires k >= 1 && !Fits(build, measure, target, Pow2(k))
    ensures r.Ok? <==> Fits(build, measure, target, 1)
    ensures r.Err? ==> r.error == DoesNotFit(measure(build(1)), target)
    ensures r.Ok? ==> 1 <= count < Pow2(k) && r.value == (build(count), measure(build(count)))
    ensures r.Ok? ==> Fits(build, measure, target, count) && !Fits(build, measure, target, count + 1)
    ensures r.Ok? && Monotone(build, measure) ==> forall d :: d > count ==> !Fits(build, measure, target, d)
  {
    var bestPayload := build(1);
    var bestLength := measure(bestPayload);
    count := 1;
    if bestLength > target {
      return Err(DoesNotFit(bestLength, target)), count;
    }
    var lower, upper := Double(build, measure, target, k);
    ghost var first, last := lower, upper;
    while lower <= upper
      invariant 1 <= lower <= upper + 1 && first <= lower && upper <= last
      invariant upper == last || !Fits(build, measure, target, upper + 1)
      invariant lower == first || count == lower - 1
      invariant Fits(build, measure, target, count) && 1 <= count
      invariant bestPayload == build(count) && bestLength == measure(bestPayload)
      invariant lower == first ==> upper >= first
      decreases upper - lower
    {
      var middle := (lower + upper) / 2;
      var payload := build(middle);
      var length := measure(payload);
      if length <= target {
        bestPayload, bestLength, count := payload, length, middle;
        lower := middle + 1;
      } else {
        upper := middle - 1;
      }
    }
    if Monotone(build, measure) {
      forall d | d > count ensures !Fits(build, measure, target, d) {
        FirstFailure(build, measure, target, count, d);
      }
    }
    r := Ok((bestPayload, bestLength));
  }
}
