/**
 Strided sharding and the merge of worker outputs of long_bench/pred.py, for one per-task file. Each worker
 predicts every `world`-th sample from its rank on; the merge reads the workers in rank order, rejects
 repeated identities and sorts by source index. The prediction of a sample is any function of the sample.
 */
module ShardMerge {
  import opened Wrappers
  import opened Sorting
  import opened Sequences

  datatype Error = DuplicateIdentity(sourceIndex: int) | TooFewRows(available: nat) | BadSelection

  /** `xs[rank::world]` */
  function Stride<T>(xs: seq<T>, rank: nat, world: nat): seq<T>
    requires world >= 1
    decreases |xs|
  {
    if |xs| <= rank then []
    else [xs[rank]] + Stride(if |xs| >= world then xs[world..] else [], rank, world)
  }

  /** Element `k` of the slice is element `rank + k * world` of the list. */
  lemma {:induction false} StrideAt<T>(xs: seq<T>, rank: nat, world: nat, k: nat)
    requires rank < world
    ensures k < |Stride(xs, rank, world)| <==> rank + k * world < |xs|
    ensures k < |Stride(xs, rank, world)| ==> Stride(xs, rank, world)[k] == xs[rank + k * world]
    decreases k
  {
    if k > 0 {
      assert k * world == (k - 1) * world + world;
      if |xs| >= world {
        StrideAt(xs[world..], rank, world, k - 1);
      } else {
        StrideAt<T>([], rank, world, k - 1);
      }
    } else {
      assert 0 * world == 0;
    }
  }

  function Map<S, T>(f: S -> T, xs: seq<S>): (r: seq<T>)
    ensures |r| == |xs| && forall i :: 0 <= i < |xs| ==> r[i] == f(xs[i])
  {
    seq(|xs|, i requires 0 <= i < |xs| => f(xs[i]))
  }

  /** A worker's file is its share of the single-worker file. */
  lemma {:induction false} MapStride<S, T>(f: S -> T, xs: seq<S>, rank: nat, world: nat)
    requires world >= 1
    ensures Map(f, Stride(xs, rank, world)) == Stride(Map(f, xs), rank, world)
    decreases |xs|
  {
    if |xs| > rank {
      var tail := if |xs| >= world then xs[world..] else [];
      MapStride(f, tail, rank, world);
      assert Map(f, tail) == if |xs| >= world then Map(f, xs)[world..] else [];
      assert Map(f, [xs[rank]] + Stride(tail, rank, world)) == [f(xs[rank])] + Map(f, Stride(tail, rank, world));
    }
  }

  /** The rows of the first `n` workers, in rank order. */
  ghost function Shards<T>(rows: seq<T>, n: nat, world: nat): seq<T>
    requires world >= 1
  {
    if n == 0 then [] else Shards(rows, n - 1, world) + Stride(rows, n - 1, world)
  }

  ghost function Tail<T>(rows: seq<T>, world: nat): seq<T> { if |rows| >= world then rows[world..] else [] }

  ghost function Head<T>(rows: seq<T>, n: nat): seq<T> { if n <= |rows| then rows[..n] else rows }

  lemma HeadStep<T>(rows: seq<T>, n: nat)
    ensures Head(rows, n + 1) == Head(rows, n) + (if n < |rows| then [rows[n]] else [])
  {
    if n < |rows| {
      assert rows[..n + 1] == rows[..n] + [rows[n]];
    } else {
      assert rows[..|rows|] == rows;
    }
  }

  lemma StrideStep<T>(rows: seq<T>, n: nat, world: nat)
    requires n < world
    ensures Stride(rows, n, world) == (if n < |rows| then [rows[n]] else []) + Stride(Tail(rows, world), n, world)
  {
  }

  lemma ShardsNext<T>(rows: seq<T>, n: nat, world: nat)
    requires world >= 1 && n > 0
    ensures Shards(rows, n, world) == Shards(rows, n - 1, world) + Stride(rows, n - 1, world)
  {
  }

  lemma MultisetSwap<T>(a: seq<T>, b: seq<T>, c: seq<T>, d: seq<T>, x: seq<T>, ax: seq<T>, bx: seq<T>, cd: seq<T>)
    requires multiset(a) == multiset(b) + multiset(c) && ax == a + (x + d) && bx == b + x && cd == c + d
    ensures multiset(ax) == multiset(bx) + multiset(cd)
  {
  }

  /** The first `n` shards are the first `n` rows and the first `n` shards of what is left after a round. */
  ghost predicate Splits<T>(rows: seq<T>, n: nat, world: nat)
    requires world >= 1
  {
    multiset(Shards(rows, n, world)) == multiset(Head(rows, n)) + multiset(Shards(Tail(rows, world), n, world))
  }

  lemma ShardsSplitNext<T>(rows: seq<T>, n: nat, world: nat)
    requires 0 < n <= world && Splits(rows, n - 1, world)
    ensures Splits(rows, n, world)
  {
    var m, tail := n - 1, Tail(rows, world);
    var x := if m < |rows| then [rows[m]] else [];
    HeadStep(rows, m);
    StrideStep(rows, m, world);
    ShardsNext(rows, n, world);
    ShardsNext(tail, n, world);
    MultisetSwap(Shards(rows, m, world), Head(rows, m), Shards(tail, m, world), Stride(tail, m, world), x,
                 Shards(rows, n, world), Head(rows, n), Shards(tail, n, world));
  }

  lemma {:induction false} ShardsSplit<T>(rows: seq<T>, n: nat, world: nat)
    requires 1 <= world && n <= world
    ensures Splits(rows, n, world)
  {
    if n > 0 {
      ShardsSplit(rows, n - 1, world);
      ShardsSplitNext(rows, n, world);
    } else {
      assert Shards(rows, 0, world) == Shards(Tail(rows, world), 0, world) == [] && Head(rows, 0) == [];
    }
  }

  lemma {:induction false} ShardsEmpty<T>(n: nat, world: nat)
    requires world >= 1
    ensures Shards<T>([], n, world) == []
  {
    if n > 0 {
      ShardsEmpty<T>(n - 1, world);
    }
  }

  lemma SplitMultiset<T>(rows: seq<T>, n: nat)
    requires n <= |rows|
    ensures multiset(rows[..n]) + multiset(rows[n..]) == multiset(rows)
  {
    assert rows == rows[..n] + rows[n..];
  }

  /** Sharding loses nothing and repeats nothing. */
  lemma {:induction false} ShardsPartition<T>(rows: seq<T>, world: nat)
    requires world >= 1
    ensures multiset(Shards(rows, world, world)) == multiset(rows)
    decreases |rows|
  {
    ShardsSplit(rows, world, world);
    if |rows| >= world {
      ShardsPartition(rows[world..], world);
      SplitMultiset(rows, world);
    } else {
      ShardsEmpty<T>(world, world);
    }
  }

  // ----- the merge

  function ByIndex<T>(key: T -> int): (T, T) -> bool { (a, b) => key(a) <= key(b) }

  ghost predicate DistinctKeys<T>(key: T -> int, rows: seq<T>) {
    forall i, j :: 0 <= i < j < |rows| ==> key(rows[i]) != key(rows[j])
  }

  lemma KeyCount<T>(key: T -> int, rows: seq<T>, i: int, j: int)
    requires 0 <= i < |rows| && 0 <= j < |rows| && DistinctKeys(key, rows) && key(rows[i]) == key(rows[j])
    ensures i == j
  {
  }

  /** Distinctness of keys does not depend on the order of the rows. */
  lemma {:induction false} DistinctPermuted<T>(key: T -> int, xs: seq<T>, ys: seq<T>)
    requires multiset(xs) == multiset(ys) && DistinctKeys(key, xs)
    ensures DistinctKeys(key, ys)
  {
    if xs == [] {
      SameMembers(xs, ys);
    } else {
      var j := PermutationSplit(xs, ys);
      var rest := ys[..j] + ys[j + 1..];
      DistinctPermuted(key, xs[1..], rest);
      SameMembers(xs[1..], rest);
      forall i | 0 <= i < |rest| ensures key(rest[i]) != key(ys[j]) {
        assert rest[i] in xs[1..];
        var k :| 0 <= k < |xs| - 1 && xs[1..][k] == rest[i];
        assert xs[k + 1] == rest[i];
      }
      forall a, b | 0 <= a < b < |ys| ensures key(ys[a]) != key(ys[b]) {
        var a' := if a < j then a else a - 1;
        var b' := if b < j then b else b - 1;
        if a != j {
          assert rest[a'] == ys[a];
        }
        if b != j {
          assert rest[b'] == ys[b];
        }
      }
    }
  }

  /** The loop over one worker's rows. */
  method AddWorker<T>(key: T -> int, rows: seq<T>, merged: seq<T>, observed: set<int>)
    returns (failure: Option<Error>, merged': seq<T>, observed': set<int>)
    requires DistinctKeys(key, merged) && observed == set i | 0 <= i < |merged| :: key(merged[i])
    ensures failure == None <==> DistinctKeys(key, merged + rows)
    ensures failure == None ==> merged' == merged + rows && observed' == set i | 0 <= i < |merged'| :: key(merged'[i])
  {
    merged', observed' := merged, observed;
    var n := 0;
    while n < |rows|
      invariant 0 <= n <= |rows| && merged' == merged + rows[..n]
      invariant DistinctKeys(key, merged') && observed' == set i | 0 <= i < |merged'| :: key(merged'[i])
    {
      var k := key(rows[n]);
      assert (merged + rows)[..|merged| + n] == merged';
      assert (merged + rows)[|merged| + n] == rows[n];
      if k in observed' {
        var i :| 0 <= i < |merged'| && key(merged'[i]) == k;
        assert key((merged + rows)[i]) == key((merged + rows)[|merged| + n]);
        return Some(DuplicateIdentity(k)), merged', observed';
      }
      var longer := merged' + [rows[n]];
      forall x ensures x in observed' + {k} <==> exists i :: 0 <= i < |longer| && key(longer[i]) == x {
        if x == k {
          assert key(longer[|merged'|]) == x;
        }
        if i :| 0 <= i < |merged'| && key(merged'[i]) == x {
          assert key(longer[i]) == x;
        }
      }
      merged', observed' := longer, observed' + {k};
      n := n + 1;
    }
    assert rows[..n] == rows;
    failure := None;
  }

  /**
   The per-task merge over all ranks. It reports a duplicate exactly when two records of the whole task share
   a source index, whatever the world size; otherwise it writes the single-worker file sorted by index.
   */
  method MergeWorkers<S, T(!new)>(data: seq<S>, predict: S -> T, key: T -> int, world: nat)
    returns (r: Result<seq<T>, Error>)
    requires world >= 1
    ensures r.Ok? <==> DistinctKeys(key, Map(predict, data))
    ensures r.Ok? ==> r.value == Sort(ByIndex(key), Map(predict, data))
  {
    ghost var single := Map(predict, data);
    var merged: seq<T>, observed: set<int> := [], {};
    var rank := 0;
    while rank < world
      invariant 0 <= rank <= world && merged == Shards(single, rank, world)
      invariant DistinctKeys(key, merged) && observed == set i | 0 <= i < |merged| :: key(merged[i])
    {
      MapStride(predict, data, rank, world);
      var failure;
      failure, merged, observed := AddWorker(key, Map(predict, Stride(data, rank, world)), merged, observed);
      if failure.Some? {
        PrefixDistinct(key, single, rank + 1, world);
        return Err(failure.value);
      }
      rank := rank + 1;
    }
    MergedAll(key, merged, single, world);
    r := Ok(Sort(ByIndex(key), merged));
  }

  lemma MergedAll<T(!new)>(key: T -> int, merged: seq<T>, single: seq<T>, world: nat)
    requires world >= 1 && merged == Shards(single, world, world) && DistinctKeys(key, merged)
    ensures DistinctKeys(key, single) && Sort(ByIndex(key), merged) == Sort(ByIndex(key), single)
  {
    ShardsPartition(single, world);
    DistinctPermuted(key, merged, single);
    SortMerged(key, merged, single);
  }

  lemma {:induction false} ShardsPrefix<T>(rows: seq<T>, n: nat, m: nat, world: nat)
    requires world >= 1 && n <= m
    ensures Shards(rows, n, world) <= Shards(rows, m, world)
    decreases m
  {
    if n < m {
      ShardsPrefix(rows, n, m - 1, world);
    }
  }

  lemma PrefixDistinct<T>(key: T -> int, rows: seq<T>, n: nat, world: nat)
    requires 1 <= world && n <= world && !DistinctKeys(key, Shards(rows, n, world))
    ensures !DistinctKeys(key, rows)
  {
    ShardsPartition(rows, world);
    ShardsPrefix(rows, n, world, world);
    if DistinctKeys(key, rows) {
      DistinctPermuted(key, rows, Shards(rows, world, world));
      assert false;
    }
  }

  lemma SortMerged<T(!new)>(key: T -> int, merged: seq<T>, single: seq<T>)
    requires multiset(merged) == multiset(single) && DistinctKeys(key, merged)
    ensures Sort(ByIndex(key), merged) == Sort(ByIndex(key), single)
  {
    var le := ByIndex(key);
    var sorted := Sort(le, merged);
    SortPermutation(le, merged);
    DistinctPermuted(key, merged, sorted);
    forall i, j | 0 <= i < |sorted| && 0 <= j < |sorted| && le(sorted[i], sorted[j]) && le(sorted[j], sorted[i])
      ensures sorted[i] == sorted[j]
    {
      KeyCount(key, sorted, i, j);
    }
    SortCanonical(le, merged, single);
  }

  ghost predicate Increasing<T>(key: T -> int, rows: seq<T>) {
    forall i, j :: 0 <= i < j < |rows| ==> key(rows[i]) < key(rows[j])
  }

  /** The merged file is the single-worker file row for row exactly when its source indices increase. */
  lemma MergedIsSingle<T(!new)>(key: T -> int, single: seq<T>)
    requires DistinctKeys(key, single)
    ensures Sort(ByIndex(key), single) == single <==> Increasing(key, single)
  {
    var le := ByIndex(key);
    if Increasing(key, single) {
      SortOfSorted(le, single);
    }
    if Sort(le, single) == single {
      SortSorted(le, single);
      forall i, j | 0 <= i < j < |single| ensures key(single[i]) < key(single[j]) {
        assert le(single[i], single[j]);
      }
    }
  }

  // ----- the numbering, and the whole way from the data to the merged file

  /** A row of a dataset file, with the index fields it may already carry. */
  datatype Row<S> = Row(body: S, sourceIdx: Option<int>, longbenchIdx: Option<int>)

  /** A row with the source index its records will carry. */
  datatype Numbered<S> = Numbered(index: int, body: S)

  datatype Record<T> = Record(sourceIdx: int, prediction: T)

  /** The length-based selection: rows of at least `least` prompt tokens, the first `most` of them. */
  datatype Selection<!S> = Selection(tokens: S -> int, least: int, most: int)

  ghost predicate NoPresets<S>(data: seq<Row<S>>) {
    forall i :: 0 <= i < |data| ==> data[i].sourceIdx == None && data[i].longbenchIdx == None
  }

  /** `_longbench_source_idx`, else `_source_idx`, which is set to the position when the file does not have it. */
  function IndexAt<S>(row: Row<S>, position: nat): int {
    if row.longbenchIdx.Some? then row.longbenchIdx.value
    else if row.sourceIdx.Some? then row.sourceIdx.value
    else position
  }

  function NumberedRows<S>(data: seq<Row<S>>): (rows: seq<Numbered<S>>)
    ensures |rows| == |data|
  {
    seq(|data|, i requires 0 <= i < |data| => Numbered(IndexAt(data[i], i), data[i].body))
  }

  method NumberRows<S>(data: seq<Row<S>>) returns (rows: seq<Numbered<S>>)
    ensures rows == NumberedRows(data)
  {
    rows := [];
    while |rows| < |data|
      invariant |rows| <= |data| && rows == NumberedRows(data)[..|rows|]
    {
      rows := rows + [Numbered(IndexAt(data[|rows|], |rows|), data[|rows|].body)];
    }
  }

  ghost predicate Rising<S>(rows: seq<Numbered<S>>) {
    forall i, j :: 0 <= i < j < |rows| ==> rows[i].index < rows[j].index
  }

  /** The rows among the first `n` that are long enough, numbered by position whatever index they carry. */
  ghost function LongRows<S>(data: seq<Row<S>>, sel: Selection<S>, n: nat): seq<Numbered<S>>
    requires n <= |data|
  {
    if n == 0 then []
    else
      LongRows(data, sel, n - 1) +
      if sel.tokens(data[n - 1].body) >= sel.least then [Numbered(n - 1, data[n - 1].body)] else []
  }

  lemma {:induction false} LongRowsRise<S>(data: seq<Row<S>>, sel: Selection<S>, n: nat)
    requires n <= |data|
    ensures Rising(LongRows(data, sel, n)) && |LongRows(data, sel, n)| <= n
    ensures forall k :: 0 <= k < |LongRows(data, sel, n)| ==> LongRows(data, sel, n)[k].index < n
  {
    if n > 0 {
      LongRowsRise(data, sel, n - 1);
    }
  }

  lemma {:induction false} LongRowsGrow<S>(data: seq<Row<S>>, sel: Selection<S>, n: nat, m: nat)
    requires n <= m <= |data|
    ensures LongRows(data, sel, n) <= LongRows(data, sel, m)
    decreases m
  {
    if n < m {
      LongRowsGrow(data, sel, n, m - 1);
    }
  }

  ghost function LongAt<S>(data: seq<Row<S>>, sel: Selection<S>): nat -> bool {
    (i: nat) => i < |data| && sel.tokens(data[i].body) >= sel.least
  }

  ghost function NumberedAt<S>(data: seq<Row<S>>): (nat, Numbered<S>) -> bool {
    (i: nat, row: Numbered<S>) => i < |data| && row.index == i && row.body == data[i].body
  }

  lemma LongRowsNext<S>(data: seq<Row<S>>, sel: Selection<S>, n: nat)
    requires n < |data|
    ensures LongRows(data, sel, n + 1) ==
            if sel.tokens(data[n].body) >= sel.least then LongRows(data, sel, n) + [Numbered(n, data[n].body)]
            else LongRows(data, sel, n)
  {
  }

  lemma LongRowsPickedNext<S>(data: seq<Row<S>>, sel: Selection<S>, n: nat)
    requires n < |data| && Picked(n, LongAt(data, sel), NumberedAt(data), LongRows(data, sel, n))
    ensures Picked(n + 1, LongAt(data, sel), NumberedAt(data), LongRows(data, sel, n + 1))
  {
    LongRowsNext(data, sel, n);
    if sel.tokens(data[n].body) >= sel.least {
      PickedMore(n, LongAt(data, sel), NumberedAt(data), LongRows(data, sel, n), Numbered(n, data[n].body));
    } else {
      PickedSkip(n, LongAt(data, sel), NumberedAt(data), LongRows(data, sel, n));
    }
  }

  lemma {:induction false} LongRowsPicked<S>(data: seq<Row<S>>, sel: Selection<S>, n: nat)
    requires n <= |data|
    ensures Picked(n, LongAt(data, sel), NumberedAt(data), LongRows(data, sel, n))
  {
    if n == 0 {
      PickedNone(LongAt(data, sel), NumberedAt(data));
    } else {
      LongRowsPicked(data, sel, n - 1);
      LongRowsPickedNext(data, sel, n - 1);
    }
  }

  /** All the long rows among the first `n`, which are all rows or those up to the last one wanted. */
  ghost predicate FirstLong<S>(data: seq<Row<S>>, sel: Selection<S>, rows: seq<Numbered<S>>) {
    && |rows| <= sel.most
    && exists n: nat :: n <= |data| && Picked(n, LongAt(data, sel), NumberedAt(data), rows) && (n == |data| || |rows| == sel.most)
  }

  /** The loop of select_longbench_mini_samples. */
  method SelectRows<S>(data: seq<Row<S>>, sel: Selection<S>) returns (rows: seq<Numbered<S>>)
    requires sel.most > 0
    ensures rows == Take(LongRows(data, sel, |data|), sel.most) && Rising(rows) && FirstLong(data, sel, rows)
  {
    rows := [];
    var n := 0;
    while n < |data|
      invariant 0 <= n <= |data| && rows == LongRows(data, sel, n) && |rows| < sel.most
    {
      if sel.tokens(data[n].body) >= sel.least {
        rows := rows + [Numbered(n, data[n].body)];
      }
      n := n + 1;
      if |rows| >= sel.most {
        break;
      }
    }
    LongRowsRise(data, sel, |data|);
    LongRowsGrow(data, sel, n, |data|);
    LongRowsPicked(data, sel, n);
  }

  /** What every worker takes its share of. */
  ghost function TaskRows<S>(file: seq<Row<S>>, numSamples: Option<nat>, sel: Option<Selection<S>>): Result<seq<Numbered<S>>, Error> {
    if numSamples.Some? && |file| < numSamples.value then Err(TooFewRows(|file|))
    else
      var data := if numSamples.Some? then file[..numSamples.value] else file;
      if sel == None then Ok(NumberedRows(data))
      else if sel.value.least < 0 || sel.value.most <= 0 then Err(BadSelection)
      else Ok(Take(LongRows(data, sel.value, |data|), sel.value.most))
  }

  /** The index of a row at a position: the fields it carries decide, in this order, and else the position. */
  ghost predicate Indexed<S>(row: Row<S>, position: nat, index: int) {
    || row.longbenchIdx == Some(index)
    || (row.longbenchIdx == None && row.sourceIdx == Some(index))
    || (row.longbenchIdx == None && row.sourceIdx == None && index == position)
  }

  /** The rows of a task, without the loops: the wanted front of the file, all of it numbered or its first long rows. */
  ghost predicate RowsOf<S>(file: seq<Row<S>>, numSamples: Option<nat>, sel: Option<Selection<S>>, rows: seq<Numbered<S>>) {
    && (numSamples.Some? ==> numSamples.value <= |file|)
    && var data := if numSamples.Some? then file[..numSamples.value] else file;
       if sel.Some? then FirstLong(data, sel.value, rows)
       else |rows| == |data| && forall i :: 0 <= i < |data| ==> rows[i].body == data[i].body && Indexed(data[i], i, rows[i].index)
  }

  /** What every worker makes of a dataset file before it takes its share. */
  method PrepareRows<S>(file: seq<Row<S>>, numSamples: Option<nat>, sel: Option<Selection<S>>)
    returns (r: Result<seq<Numbered<S>>, Error>)
    ensures r == TaskRows(file, numSamples, sel)
    ensures r.Ok? ==> RowsOf(file, numSamples, sel, r.value)
    ensures r.Ok? && (NoPresets(file) || sel.Some?) ==> Rising(r.value)
  {
    var data := file;
    if numSamples.Some? {
      if |data| < numSamples.value {
        return Err(TooFewRows(|data|));
      }
      data := data[..numSamples.value];
    }
    var rows;
    if sel.Some? {
      if sel.value.least < 0 || sel.value.most <= 0 {
        return Err(BadSelection);
      }
      rows := SelectRows(data, sel.value);
    } else {
      rows := NumberRows(data);
    }
    r := Ok(rows);
  }

  /** The single worker's file. */
  function SingleFile<S, T>(rows: seq<Numbered<S>>, predict: S -> T): seq<Record<T>> {
    Map((row: Numbered<S>) => Record(row.index, predict(row.body)), rows)
  }

  /** Line `i` of the file is the prediction for row `i` under that row's index. */
  ghost predicate Filed<S, T>(rows: seq<Numbered<S>>, predict: S -> T, file: seq<Record<T>>) {
    && |file| == |rows|
    && forall i :: 0 <= i < |rows| ==> file[i].sourceIdx == rows[i].index && file[i].prediction == predict(rows[i].body)
  }

  function Key<T>(record: Record<T>): int { record.sourceIdx }

  /**
   From the rows to the merged file. For every world size and prediction the merged file is the single worker's
   file, row for row and without a duplicate, if and only if the indices rise.
   */
  method MergedFile<S, T(!new)>(rows: seq<Numbered<S>>, predict: S -> T, world: nat) returns (r: Result<seq<Record<T>>, Error>)
    requires world >= 1
    ensures r == Ok(SingleFile(rows, predict)) <==> Rising(rows)
    ensures Filed(rows, predict, SingleFile(rows, predict))
  {
    ghost var single := SingleFile(rows, predict);
    r := MergeWorkers(rows, (row: Numbered<S>) => Record(row.index, predict(row.body)), Key, world);
    assert Increasing(Key, single) <==> Rising(rows) by {
      assert forall i :: 0 <= i < |rows| ==> Key(single[i]) == rows[i].index;
    }
    assert Increasing(Key, single) ==> DistinctKeys(Key, single);
    if DistinctKeys(Key, single) {
      MergedIsSingle(Key, single);
    }
  }

  /**
   The whole run of a task. Unless a file carries index fields of its own and no selection replaces them, every
   world size reproduces the single worker's file row for row and reports no duplicate.
   */
  method RunTask<S, T(!new)>(file: seq<Row<S>>, numSamples: Option<nat>, sel: Option<Selection<S>>, predict: S -> T, world: nat)
    returns (r: Result<seq<Record<T>>, Error>)
    requires world >= 1
    ensures var rows := TaskRows(file, numSamples, sel);
            if rows.Err? then r == Err(rows.error)
            else RowsOf(file, numSamples, sel, rows.value) && Filed(rows.value, predict, SingleFile(rows.value, predict))
                 && (r == Ok(SingleFile(rows.value, predict)) <==> Rising(rows.value))
                 && (NoPresets(file) || sel.Some? ==> r == Ok(SingleFile(rows.value, predict)))
  {
    var prepared := PrepareRows(file, numSamples, sel);
    if prepared.Err? {
      return Err(prepared.error);
    }
    r := MergedFile(prepared.value, predict, world);
  }

  /** Index fields in the file can repeat an identity, or put two rows in the other order. */
  lemma PresetsFail<S, T>(a: S, b: S, predict: S -> T)
    ensures !DistinctKeys(Key, SingleFile(NumberedRows([Row(a, Some(1), None), Row(b, None, None)]), predict))
    ensures var rows := NumberedRows([Row(a, Some(1), None), Row(b, Some(0), None)]);
            DistinctKeys(Key, SingleFile(rows, predict)) && !Rising(rows)
  {
    var one := NumberedRows([Row(a, Some(1), None), Row(b, None, None)]);
    assert one[0].index == one[1].index;
    assert Key(SingleFile(one, predict)[0]) == Key(SingleFile(one, predict)[1]);
    var two := NumberedRows([Row(a, Some(1), None), Row(b, Some(0), None)]);
    assert two[0].index > two[1].index;
  }
}
