/**
 Python's stable `sorted`: insertion from the left to the right, each new element going
 behind the elements that are not greater. The lemmas say what the rest of the project
 uses: the result is sorted, is a permutation, and is the only sorted permutation when
 ties are identical.
 */
module Sorting {

  /** `le` compares any two elements and is transitive: what a Python sort key gives. */
  ghost predicate TotalPreorder<T(!new)>(le: (T, T) -> bool) {
    && (forall x, y :: le(x, y) || le(y, x))
    && (forall x, y, z :: le(x, y) && le(y, z) ==> le(x, z))
  }

  ghost predicate Sorted<T>(le: (T, T) -> bool, xs: seq<T>) {
    forall i, j :: 0 <= i < j < |xs| ==> le(xs[i], xs[j])
  }

  /** Elements that tie are the same element. */
  ghost predicate TiesEqual<T>(le: (T, T) -> bool, xs: seq<T>) {
    forall i, j :: 0 <= i < |xs| && 0 <= j < |xs| && le(xs[i], xs[j]) && le(xs[j], xs[i]) ==> xs[i] == xs[j]
  }

  function Insert<T>(le: (T, T) -> bool, xs: seq<T>, x: T): (r: seq<T>)
    ensures |r| == |xs| + 1
  {
    if xs == [] then [x]
    else if le(xs[0], x) then [xs[0]] + Insert(le, xs[1..], x)
    else [x] + xs
  }

  function Sort<T>(le: (T, T) -> bool, xs: seq<T>): (r: seq<T>)
    ensures |r| == |xs|
  {
    if xs == [] then [] else Insert(le, Sort(le, xs[..|xs| - 1]), xs[|xs| - 1])
  }

  lemma {:induction false} InsertPermutation<T>(le: (T, T) -> bool, xs: seq<T>, x: T)
    ensures multiset(Insert(le, xs, x)) == multiset(xs) + multiset{x}
  {
    if xs != [] {
      assert xs == [xs[0]] + xs[1..];
      InsertPermutation(le, xs[1..], x);
    }
  }

  lemma {:induction false} SortPermutation<T>(le: (T, T) -> bool, xs: seq<T>)
    ensures multiset(Sort(le, xs)) == multiset(xs)
  {
    if xs != [] {
      var front := xs[..|xs| - 1];
      assert xs == front + [xs[|xs| - 1]];
      SortPermutation(le, front);
      InsertPermutation(le, Sort(le, front), xs[|xs| - 1]);
    }
  }

  lemma SortSnoc<T>(le: (T, T) -> bool, xs: seq<T>, x: T)
    ensures Sort(le, xs + [x]) == Insert(le, Sort(le, xs), x)
  {
    assert (xs + [x])[..|xs|] == xs;
  }

  lemma SameMembers<T>(xs: seq<T>, ys: seq<T>)
    requires multiset(xs) == multiset(ys)
    ensures |xs| == |ys|
    ensures forall x :: x in xs <==> x in ys
  {
    assert |multiset(xs)| == |multiset(ys)|;
    forall x ensures x in xs <==> x in ys {
      assert x in xs <==> x in multiset(xs);
      assert x in ys <==> x in multiset(ys);
    }
  }

  lemma {:induction false} InsertSorted<T(!new)>(le: (T, T) -> bool, xs: seq<T>, x: T)
    requires TotalPreorder(le) && Sorted(le, xs)
    ensures Sorted(le, Insert(le, xs, x))
  {
    if xs != [] {
      var r := Insert(le, xs, x);
      if le(xs[0], x) {
        var rest := Insert(le, xs[1..], x);
        InsertSorted(le, xs[1..], x);
        InsertPermutation(le, xs[1..], x);
        forall j | 0 <= j < |rest| ensures le(xs[0], rest[j]) {
          assert rest[j] in multiset(xs[1..]) + multiset{x};
          assert rest[j] in xs[1..] || rest[j] == x;
        }
        assert r == [xs[0]] + rest;
      } else {
        forall j | 0 <= j < |xs| ensures le(x, xs[j]) {
          assert le(x, xs[0]);
          assert j == 0 || le(xs[0], xs[j]);
        }
      }
    }
  }

  lemma {:induction false} SortSorted<T(!new)>(le: (T, T) -> bool, xs: seq<T>)
    requires TotalPreorder(le)
    ensures Sorted(le, Sort(le, xs))
  {
    if xs != [] {
      SortSorted(le, xs[..|xs| - 1]);
      InsertSorted(le, Sort(le, xs[..|xs| - 1]), xs[|xs| - 1]);
    }
  }

  lemma LeastFirst<T(!new)>(le: (T, T) -> bool, xs: seq<T>, y: T)
    requires TotalPreorder(le) && Sorted(le, xs) && y in xs
    ensures le(xs[0], y)
  {
    assert le(xs[0], xs[0]);
    var i :| 0 <= i < |xs| && xs[i] == y;
    assert i == 0 || le(xs[0], xs[i]);
  }

  lemma HeadsEqual<T(!new)>(le: (T, T) -> bool, xs: seq<T>, ys: seq<T>)
    requires TotalPreorder(le)
    requires Sorted(le, xs) && Sorted(le, ys) && TiesEqual(le, xs)
    requires xs != [] && ys != [] && ys[0] in xs && xs[0] in ys
    ensures xs[0] == ys[0]
  {
    LeastFirst(le, xs, ys[0]);
    LeastFirst(le, ys, xs[0]);
    var i :| 0 <= i < |xs| && xs[i] == ys[0];
  }

  lemma TailMultiset<T>(xs: seq<T>)
    requires xs != []
    ensures multiset(xs[1..]) == multiset(xs) - multiset{xs[0]}
  {
    assert xs == [xs[0]] + xs[1..];
  }

  /** The first elements agree, and the rest is again as required. */
  lemma UniqueStep<T(!new)>(le: (T, T) -> bool, xs: seq<T>, ys: seq<T>)
    requires TotalPreorder(le)
    requires Sorted(le, xs) && Sorted(le, ys) && TiesEqual(le, xs)
    requires multiset(xs) == multiset(ys) && xs != []
    ensures ys != [] && xs[0] == ys[0] && multiset(xs[1..]) == multiset(ys[1..])
  {
    SameMembers(xs, ys);
    assert xs[0] in xs && ys[0] in ys;
    HeadsEqual(le, xs, ys);
    TailMultiset(xs);
    TailMultiset(ys);
  }

  /** Two sorted permutations of each other are equal when ties are identical. */
  lemma {:induction false} SortedUnique<T(!new)>(le: (T, T) -> bool, xs: seq<T>, ys: seq<T>)
    requires TotalPreorder(le)
    requires Sorted(le, xs) && Sorted(le, ys) && TiesEqual(le, xs)
    requires multiset(xs) == multiset(ys)
    ensures xs == ys
  {
    if xs == [] {
      SameMembers(xs, ys);
    } else {
      UniqueStep(le, xs, ys);
      TailSorted(le, xs);
      TailSorted(le, ys);
      SortedUnique(le, xs[1..], ys[1..]);
      assert xs == [xs[0]] + xs[1..] && ys == [ys[0]] + ys[1..];
    }
  }

  lemma TailSorted<T>(le: (T, T) -> bool, xs: seq<T>)
    requires xs != []
    ensures Sorted(le, xs) ==> Sorted(le, xs[1..])
    ensures TiesEqual(le, xs) ==> TiesEqual(le, xs[1..])
  {
  }

  /** Sorting forgets the input order when ties are identical. */
  lemma SortCanonical<T(!new)>(le: (T, T) -> bool, xs: seq<T>, ys: seq<T>)
    requires TotalPreorder(le) && TiesEqual(le, Sort(le, xs))
    requires multiset(xs) == multiset(ys)
    ensures Sort(le, xs) == Sort(le, ys)
  {
    SortSorted(le, xs);
    SortSorted(le, ys);
    SortPermutation(le, xs);
    SortPermutation(le, ys);
    SortedUnique(le, Sort(le, xs), Sort(le, ys));
  }

  /** Inserting an element that no other exceeds appends it. */
  lemma {:induction false} InsertLast<T>(le: (T, T) -> bool, xs: seq<T>, x: T)
    requires forall i :: 0 <= i < |xs| ==> le(xs[i], x)
    ensures Insert(le, xs, x) == xs + [x]
  {
    if xs != [] {
      InsertLast(le, xs[1..], x);
      assert xs + [x] == [xs[0]] + (xs[1..] + [x]);
    }
  }

  /** Sorting a sorted list changes nothing, whatever the ties. */
  lemma {:induction false} SortOfSorted<T>(le: (T, T) -> bool, xs: seq<T>)
    requires Sorted(le, xs)
    ensures Sort(le, xs) == xs
  {
    if xs != [] {
      var front := xs[..|xs| - 1];
      SortOfSorted(le, front);
      InsertLast(le, front, xs[|xs| - 1]);
      assert xs == front + [xs[|xs| - 1]];
    }
  }

  /** The first element of a sequence, found in a permutation of it: what is left is again a permutation. */
  lemma PermutationSplit<T>(xs: seq<T>, ys: seq<T>) returns (j: nat)
    requires xs != [] && multiset(xs) == multiset(ys)
    ensures j < |ys| && ys[j] == xs[0] && ys == ys[..j] + [ys[j]] + ys[j + 1..]
    ensures multiset(ys[..j] + ys[j + 1..]) == multiset(xs[1..])
  {
    SameMembers(xs, ys);
    assert xs[0] in ys;
    j :| 0 <= j < |ys| && ys[j] == xs[0];
    assert ys == ys[..j] + [ys[j]] + ys[j + 1..];
    TailMultiset(xs);
  }
}
