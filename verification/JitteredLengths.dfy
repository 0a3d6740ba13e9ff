/**
 `_jittered_lengths` of efficiency/workload.py: request lengths drawn by dealing out shuffled copies of all
 representable lengths. Each shuffle is arbitrary; Python's round() is round-half-to-even.
 */
module JitteredLengths {
  import opened Wrappers
  import opened Arithmetic
  import opened Sequences
  import opened Sorting

  datatype Error = NotPositive | BadFraction | OneLength

  function RoundHalfEven(x: real): int {
    var low := x.Floor;
    var rest := x - low as real;
    if rest < 0.5 then low else if rest > 0.5 then low + 1 else if low % 2 == 0 then low else low + 1
  }

  function Lowest(target: int, fraction: real): int {
    Max(1, target - Max(1, RoundHalfEven(target as real * fraction)))
  }

  /** `n` is as near to `x` as any whole number, and even if two are as near. */
  ghost predicate Nearest(x: real, n: int) {
    x - 0.5 <= n as real <= x + 0.5 && (n as real == x - 0.5 || n as real == x + 0.5 ==> n % 2 == 0)
  }

  lemma RoundExact(x: real, n: int)
    ensures RoundHalfEven(x) == n <==> Nearest(x, n)
  {
    var low := x.Floor;
    assert low as real <= x < low as real + 1.0;
    if Nearest(x, n) {
      assert n == low || n == low + 1;
    }
  }

  /** `low` is the target less the jitter, which is the fraction of it in whole tokens; neither is less than one token. */
  ghost predicate LowestLength(target: int, fraction: real, low: int) {
    var tokens := target as real * fraction;
    exists jitter :: Nearest(tokens, jitter)
                     && low == if jitter < 1 then target - 1 else if jitter < target then target - jitter else 1
  }

  lemma LowestExact(target: int, fraction: real)
    requires target >= 2
    ensures LowestLength(target, fraction, Lowest(target, fraction))
  {
    RoundExact(target as real * fraction, RoundHalfEven(target as real * fraction));
  }

  function Range(low: int, high: int): (r: seq<int>)
    requires low <= high
    ensures |r| == high - low + 1 && forall i :: 0 <= i < |r| ==> r[i] == low + i
  {
    seq(high - low + 1, i => low + i)
  }

  /** Round `n`'s shuffle returns a permutation of what it is given. */
  ghost predicate Shuffles(shuffle: (nat, seq<int>) -> seq<int>) {
    forall n, xs :: multiset(shuffle(n, xs)) == multiset(xs)
  }

  predicate Varies(count: int, fraction: real, vary: bool) { vary && count != 1 && fraction != 0.0 }

  /** Every length of the range occurs `n` times, nothing else occurs. */
  ghost predicate Dealt(lengths: seq<int>, low: int, high: int, n: nat) {
    forall v :: multiset(lengths)[v] == if low <= v <= high then n else 0
  }

  /** Any two lengths of the range occur equally often, up to one; nothing else occurs. */
  ghost predicate Balanced(lengths: seq<int>, low: int, high: int) {
    && (forall v :: v in lengths ==> low <= v <= high)
    && (forall a, b :: low <= a <= high && low <= b <= high ==> multiset(lengths)[a] <= multiset(lengths)[b] + 1)
  }

  lemma {:induction false} RangeCount(low: int, high: int, v: int)
    requires low <= high
    ensures multiset(Range(low, high))[v] == if low <= v <= high then 1 else 0
    decreases high - low
  {
    if low == high {
      assert Range(low, high) == [low];
    } else {
      RangeCount(low, high - 1, v);
      assert Range(low, high) == Range(low, high - 1) + [high];
    }
  }

  lemma CycleCount(cycle: seq<int>, low: int, high: int)
    requires low <= high && multiset(cycle) == multiset(Range(low, high))
    ensures Dealt(cycle, low, high, 1)
    ensures forall i, j :: 0 <= i < j < |cycle| ==> cycle[i] != cycle[j]
    ensures |cycle| == high - low + 1
  {
    forall v ensures multiset(cycle)[v] == if low <= v <= high then 1 else 0 {
      RangeCount(low, high, v);
    }
    assert |multiset(cycle)| == |multiset(Range(low, high))|;
    forall i, j | 0 <= i < j < |cycle| ensures cycle[i] != cycle[j] {
      if cycle[i] == cycle[j] {
        TwiceCount(cycle, i, j);
      }
    }
  }

  /** Whole deals plus the front of one more cycle: balanced. */
  lemma CutIsBalanced(whole: seq<int>, cycle: seq<int>, low: int, high: int, n: nat, cut: nat)
    requires low <= high && Dealt(whole, low, high, n) && multiset(cycle) == multiset(Range(low, high)) && cut <= |cycle|
    ensures Balanced(whole + cycle[..cut], low, high)
  {
    CycleCount(cycle, low, high);
    var front := cycle[..cut];
    assert cycle == front + cycle[cut..];
    forall v ensures multiset(whole + front)[v] == multiset(whole)[v] + multiset(front)[v] {
    }
    forall v ensures multiset(front)[v] <= multiset(cycle)[v] {
      assert multiset(cycle)[v] == multiset(front)[v] + multiset(cycle[cut..])[v];
    }
    forall v | v in whole + front ensures low <= v <= high {
      assert multiset(whole + front)[v] > 0;
    }
  }

  lemma TwoLengths(lengths: seq<int>)
    requires |lengths| >= 2 && lengths[0] != lengths[1]
    ensures |set x | x in lengths| >= 2
  {
    var all := set x | x in lengths;
    assert {lengths[0], lengths[1]} <= all;
    var rest := all - {lengths[0]};
    assert lengths[1] in rest && |rest| >= 1;
  }

  lemma DealMore(whole: seq<int>, cycle: seq<int>, low: int, high: int, n: nat)
    requires Dealt(whole, low, high, n) && Dealt(cycle, low, high, 1)
    ensures Dealt(whole + cycle, low, high, n + 1)
  {
  }

  /** The deal loop and the cut: rounds of shuffled candidates until there are enough. */
  method Deal(shuffle: (nat, seq<int>) -> seq<int>, low: int, high: int, count: int) returns (lengths: seq<int>, rounds: nat)
    requires low < high && count >= 2 && Shuffles(shuffle)
    ensures |lengths| == count && Balanced(lengths, low, high) && lengths[0] != lengths[1]
  {
    var candidates := Range(low, high);
    lengths, rounds := [], 0;
    ghost var whole: seq<int>, cycle: seq<int> := [], [];
    while |lengths| < count
      invariant Dealt(lengths, low, high, rounds)
      invariant rounds == 0 ==> lengths == []
      invariant rounds > 0 ==> |lengths| >= 2 && lengths[0] != lengths[1]
      invariant rounds > 0 ==> lengths == whole + cycle && |whole| < count && Dealt(whole, low, high, rounds - 1)
                               && multiset(cycle) == multiset(candidates)
      decreases count - |lengths|
    {
      whole := lengths;
      cycle := shuffle(rounds, candidates);
      CycleCount(cycle, low, high);
      lengths := lengths + shuffle(rounds, candidates);
      DealMore(whole, cycle, low, high, rounds);
      rounds := rounds + 1;
    }
    CutIsBalanced(whole, cycle, low, high, rounds - 1, count - |whole|);
    assert lengths[..count] == whole + cycle[..count - |whole|];
    lengths := lengths[..count];
  }

  /**
   The generator. In the varying case it returns exactly `count` lengths between the lowest one and the
   target, as evenly dealt as possible, at least two of them different; the repair for a constant draw
   is never needed. It raises on bad arguments, and when the target is the only representable length.
   */
  method Jittered(target: int, count: int, fraction: real, vary: bool, shuffle: (nat, seq<int>) -> seq<int>)
    returns (r: Result<seq<int>, Error>)
    requires Shuffles(shuffle)
    ensures r == Err(NotPositive) <==> target <= 0 || count <= 0
    ensures r == Err(BadFraction) <==> target > 0 && count > 0 && !(0.0 <= fraction < 1.0)
    ensures r == Err(OneLength) <==> target == 1 && count > 0 && 0.0 <= fraction < 1.0 && Varies(count, fraction, vary)
    ensures r.Ok? ==> |r.value| == count
    ensures r.Ok? && !Varies(count, fraction, vary) ==> forall i :: 0 <= i < count ==> r.value[i] == target
    ensures r.Ok? && Varies(count, fraction, vary) ==>
              exists low :: LowestLength(target, fraction, low) && 1 <= low < target && Balanced(r.value, low, target)
    ensures r.Ok? && Varies(count, fraction, vary) ==> exists a, b :: a in r.value && b in r.value && a != b
  {
    if target <= 0 || count <= 0 {
      return Err(NotPositive);
    }
    if !(0.0 <= fraction < 1.0) {
      return Err(BadFraction);
    }
    if !Varies(count, fraction, vary) {
      return Ok(seq(count, _ => target));
    }
    var low := Lowest(target, fraction);
    if low >= target {
      return Err(OneLength);
    }
    var lengths, rounds := Deal(shuffle, low, target, count);
    TwoLengths(lengths);
    if |set x | x in lengths| < 2 {
      assert false;
    }
    var result := shuffle(rounds, lengths);
    SameMembers(lengths, result);
    LowestExact(target, fraction);
    assert lengths[0] in lengths && lengths[1] in lengths;
    r := Ok(result);
  }
}
