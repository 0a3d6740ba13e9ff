/** Joining a list of lists, cutting a list, and counting. */
module Sequences {
  ghost function Join<T>(parts: seq<seq<T>>): seq<T> {
    if parts == [] then [] else Join(parts[..|parts| - 1]) + parts[|parts| - 1]
  }

  lemma JoinSnoc<T>(parts: seq<seq<T>>, part: seq<T>)
    ensures Join(parts + [part]) == Join(parts) + part
  {
    assert (parts + [part])[..|parts|] == parts;
  }

  /** The first `n`. */
  function Take<T>(xs: seq<T>, n: nat): seq<T> { if |xs| <= n then xs else xs[..n] }

  lemma SubsetSize<T>(a: set<T>, b: set<T>)
    requires a <= b
    ensures |a| <= |b|
  {
    assert b == a + (b - a);
  }

  lemma CountSnoc<T>(xs: seq<T>, last: T, x: T)
    ensures multiset(xs + [last])[x] == multiset(xs)[x] + (if last == x then 1 else 0)
  {
  }

  lemma TwiceCount<T>(xs: seq<T>, i: int, j: int)
    requires 0 <= i < j < |xs| && xs[i] == xs[j]
    ensures multiset(xs)[xs[i]] >= 2
  {
    assert xs == xs[..i] + [xs[i]] + xs[i + 1..j] + [xs[j]] + xs[j + 1..];
  }

  // ----- picking in order

  /** Increasing positions below `n`: exactly those to keep. */
  ghost predicate KeptAt(at: seq<nat>, n: nat, keep: nat -> bool) {
    && (forall i, j :: 0 <= i < j < |at| ==> at[i] < at[j])
    && (forall k :: 0 <= k < |at| ==> at[k] < n && keep(at[k]))
    && (forall i :: 0 <= i < n && keep(i) ==> i in at)
  }

  ghost predicate MadeAt<U>(at: seq<nat>, made: (nat, U) -> bool, ys: seq<U>) {
    |at| == |ys| && forall k :: 0 <= k < |ys| ==> made(at[k], ys[k])
  }

  /** `ys` has one element for each position below `n` to keep, in order, each as `made` says of its position. */
  ghost predicate Picked<U>(n: nat, keep: nat -> bool, made: (nat, U) -> bool, ys: seq<U>) {
    exists at: seq<nat> :: KeptAt(at, n, keep) && MadeAt(at, made, ys)
  }

  lemma PickedNone<U>(keep: nat -> bool, made: (nat, U) -> bool)
    ensures Picked(0, keep, made, [])
  {
    var at: seq<nat> := [];
    assert KeptAt(at, 0, keep) && MadeAt(at, made, []);
  }

  lemma PickedSkip<U>(n: nat, keep: nat -> bool, made: (nat, U) -> bool, ys: seq<U>)
    requires Picked(n, keep, made, ys) && !keep(n)
    ensures Picked(n + 1, keep, made, ys)
  {
    var at: seq<nat> :| KeptAt(at, n, keep) && MadeAt(at, made, ys);
    assert KeptAt(at, n + 1, keep);
  }

  lemma KeptMore(at: seq<nat>, n: nat, keep: nat -> bool)
    requires KeptAt(at, n, keep) && keep(n)
    ensures KeptAt(at + [n], n + 1, keep)
  {
    forall i | 0 <= i < n + 1 && keep(i) ensures i in at + [n] {
      assert i in at || i == n;
    }
  }

  lemma PickedMore<U>(n: nat, keep: nat -> bool, made: (nat, U) -> bool, ys: seq<U>, y: U)
    requires Picked(n, keep, made, ys) && keep(n) && made(n, y)
    ensures Picked(n + 1, keep, made, ys + [y])
  {
    var at: seq<nat> :| KeptAt(at, n, keep) && MadeAt(at, made, ys);
    KeptMore(at, n, keep);
    assert MadeAt(at + [n], made, ys + [y]);
  }
}
