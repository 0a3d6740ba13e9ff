/** Sorting a batch by request keeps each request's context length beside it. */
module RequestOrder {
  import opened Sorting
  import opened Sequences
  import opened DecodeWindow

  lemma IntLeOrder()
    ensures TotalPreorder(IntLe)
  {
  }

  lemma PairLeOrder()
    ensures TotalPreorder(PairLe)
  {
  }

  lemma FirstsConcat(ps: seq<(int, int)>, qs: seq<(int, int)>)
    ensures Firsts(ps + qs) == Firsts(ps) + Firsts(qs)
  {
  }

  lemma {:induction false} InsertFirsts(ps: seq<(int, int)>, p: (int, int))
    ensures multiset(Firsts(Insert(PairLe, ps, p))) == multiset(Firsts(ps)) + multiset{p.0}
  {
    assert Firsts([p]) == [p.0];
    if ps == [] {
      assert Firsts(ps) == [];
    } else if PairLe(ps[0], p) {
      var rest := Insert(PairLe, ps[1..], p);
      InsertFirsts(ps[1..], p);
      FirstsConcat([ps[0]], rest);
      FirstsConcat([ps[0]], ps[1..]);
      assert ps == [ps[0]] + ps[1..];
      assert Insert(PairLe, ps, p) == [ps[0]] + rest;
    } else {
      FirstsConcat([p], ps);
    }
  }

  lemma {:induction false} SortFirsts(ps: seq<(int, int)>)
    ensures multiset(Firsts(Sort(PairLe, ps))) == multiset(Firsts(ps))
  {
    if ps == [] {
      assert Firsts(ps) == [];
    } else {
      var front := ps[..|ps| - 1];
      var last := ps[|ps| - 1];
      SortFirsts(front);
      InsertFirsts(Sort(PairLe, front), last);
      FirstsConcat(front, [last]);
      assert ps == front + [last] && Firsts([last]) == [last.0];
    }
  }

  /** The ids of the pair-sorted batch are the sorted ids, and the pairs are the batch's own pairs. */
  lemma SortedPairsAlign(b: Batch)
    requires |b.contexts| == |b.requestIds|
    ensures Firsts(SortedPairs(b)) == SortedIds(b.requestIds)
    ensures Zip(Firsts(SortedPairs(b)), Seconds(SortedPairs(b))) == SortedPairs(b)
    ensures multiset(SortedPairs(b)) == multiset(Zip(b.requestIds, b.contexts))
  {
    var zipped := Zip(b.requestIds, b.contexts);
    var ps := SortedPairs(b);
    IntLeOrder();
    PairLeOrder();
    SortSorted(PairLe, zipped);
    SortSorted(IntLe, b.requestIds);
    SortPermutation(PairLe, zipped);
    SortPermutation(IntLe, b.requestIds);
    SortFirsts(zipped);
    assert Firsts(zipped) == b.requestIds;
    forall i, j | 0 <= i < j < |ps| ensures IntLe(Firsts(ps)[i], Firsts(ps)[j]) {
      assert PairLe(ps[i], ps[j]);
    }
    SortedUnique(IntLe, Firsts(ps), SortedIds(b.requestIds));
  }

  lemma {:induction false} DistinctCount(xs: seq<int>, v: int)
    requires Distinct(xs)
    ensures multiset(xs)[v] <= 1
  {
    if xs != [] {
      assert xs == [xs[0]] + xs[1..];
      DistinctCount(xs[1..], v);
      if xs[0] == v {
        assert v !in xs[1..];
      }
    }
  }

  lemma DistinctPermutation(xs: seq<int>, ys: seq<int>)
    requires Distinct(xs) && multiset(xs) == multiset(ys)
    ensures Distinct(ys)
  {
    forall i, j | 0 <= i < j < |ys| ensures ys[i] != ys[j] {
      if ys[i] == ys[j] {
        TwiceCount(ys, i, j);
        DistinctCount(xs, ys[i]);
      }
    }
  }

  // ----- requests and contexts without any order

  /** Each request of both lists has in the first the context it has in the second, and `more` tokens more. */
  ghost predicate Ahead(ids: seq<int>, contexts: seq<int>, ids': seq<int>, contexts': seq<int>, more: int) {
    && |contexts| == |ids| && |contexts'| == |ids'| && multiset(ids) == multiset(ids')
    && forall i, j :: 0 <= i < |ids| && 0 <= j < |ids'| && ids[i] == ids'[j] ==> contexts[i] == contexts'[j] + more
  }

  lemma SortedSame(xs: seq<int>, ys: seq<int>)
    ensures SortedIds(xs) == SortedIds(ys) <==> multiset(xs) == multiset(ys)
  {
    IntLeOrder();
    SortPermutation(IntLe, xs);
    SortPermutation(IntLe, ys);
    if multiset(xs) == multiset(ys) {
      SortCanonical(IntLe, xs, ys);
    }
  }

  /** Equal multisets of pairs over distinct requests: each request has the same context in both. */
  lemma PairsAhead(ids: seq<int>, contexts: seq<int>, ids': seq<int>, contexts': seq<int>)
    requires |contexts| == |ids| && |contexts'| == |ids'| && Distinct(ids')
    requires multiset(Zip(ids, contexts)) == multiset(Zip(ids', contexts'))
    requires multiset(ids) == multiset(ids')
    ensures Ahead(ids, contexts, ids', contexts', 0)
  {
    var here, there := Zip(ids, contexts), Zip(ids', contexts');
    forall i, j | 0 <= i < |ids| && 0 <= j < |ids'| && ids[i] == ids'[j] ensures contexts[i] == contexts'[j] {
      assert here[i] in multiset(there);
      var k :| 0 <= k < |there| && there[k] == here[i];
      assert ids'[k] == ids'[j];
    }
  }

  lemma SortedAhead(b: Batch)
    requires |b.contexts| == |b.requestIds| && Distinct(b.requestIds)
    ensures Ahead(Firsts(SortedPairs(b)), Seconds(SortedPairs(b)), b.requestIds, b.contexts, 0)
    ensures Distinct(Firsts(SortedPairs(b)))
  {
    SortedPairsAlign(b);
    SortPermutation(IntLe, b.requestIds);
    DistinctPermutation(b.requestIds, Firsts(SortedPairs(b)));
    PairsAhead(Firsts(SortedPairs(b)), Seconds(SortedPairs(b)), b.requestIds, b.contexts);
  }

  lemma AheadSum(ids: seq<int>, contexts: seq<int>, ids': seq<int>, contexts': seq<int>, ids'': seq<int>, contexts'': seq<int>,
                 m: int, n: int)
    requires Ahead(ids, contexts, ids', contexts', m) && Ahead(ids', contexts', ids'', contexts'', n)
    ensures Ahead(ids, contexts, ids'', contexts'', m + n)
  {
    forall i, j | 0 <= i < |ids| && 0 <= j < |ids''| && ids[i] == ids''[j] ensures contexts[i] == contexts''[j] + m + n {
      assert ids[i] in multiset(ids');
      var k :| 0 <= k < |ids'| && ids'[k] == ids[i];
    }
  }

  lemma AheadBack(ids: seq<int>, contexts: seq<int>, ids': seq<int>, contexts': seq<int>, more: int)
    requires Ahead(ids, contexts, ids', contexts', more)
    ensures Ahead(ids', contexts', ids, contexts, -more)
  {
  }

  /** The sorted contexts of one batch are those of another a token further exactly if each request's context is. */
  lemma BumpedAhead(b: Batch, c: Batch)
    requires |b.contexts| == |b.requestIds| && |c.contexts| == |c.requestIds|
    requires Distinct(b.requestIds) && Distinct(c.requestIds) && multiset(b.requestIds) == multiset(c.requestIds)
    ensures Seconds(SortedPairs(b)) == Bump(Seconds(SortedPairs(c))) <==> Ahead(b.requestIds, b.contexts, c.requestIds, c.contexts, 1)
  {
    var ids, xs, ys := Firsts(SortedPairs(b)), Seconds(SortedPairs(b)), Seconds(SortedPairs(c));
    SortedAhead(b);
    SortedAhead(c);
    SortedPairsAlign(b);
    SortedPairsAlign(c);
    SortedSame(b.requestIds, c.requestIds);
    assert Firsts(SortedPairs(c)) == ids;
    AheadBack(ids, xs, b.requestIds, b.contexts, 0);
    AheadBack(ids, ys, c.requestIds, c.contexts, 0);
    BumpIsAhead(ids, xs, ys);
    if xs == Bump(ys) {
      AheadSum(b.requestIds, b.contexts, ids, xs, ids, ys, 0, 1);
      AheadSum(b.requestIds, b.contexts, ids, ys, c.requestIds, c.contexts, 1, 0);
    }
    if Ahead(b.requestIds, b.contexts, c.requestIds, c.contexts, 1) {
      AheadSum(ids, xs, b.requestIds, b.contexts, c.requestIds, c.contexts, 0, 1);
      AheadSum(ids, xs, c.requestIds, c.contexts, ids, ys, 1, 0);
    }
  }

  lemma BumpIsAhead(ids: seq<int>, xs: seq<int>, ys: seq<int>)
    requires Distinct(ids) && |xs| == |ids| == |ys|
    ensures xs == Bump(ys) <==> Ahead(ids, xs, ids, ys, 1)
  {
    if Ahead(ids, xs, ids, ys, 1) {
      assert forall i :: 0 <= i < |ids| ==> ids[i] == ids[i] && xs[i] == ys[i] + 1;
    }
  }
}
