/**
 What a run and its result say about the batches that were submitted, request by request: no ordering of requests, and
 nothing of the window's own notion of an eligible batch.
 */
module DecodeWindowReadings {
  import opened Sorting
  import opened DecodeWindow
  import opened RequestOrder
  import opened DecodeWindowHistory
  import opened DecodeWindowTheorems

  ghost predicate NoRepeat(ids: seq<int>) { forall i, j :: 0 <= i < j < |ids| ==> ids[i] != ids[j] }

  /** One token for each of `concurrency` different requests, all of them admitted. */
  ghost predicate FullBatch(cfg: Config, b: Batch) {
    && b.isDecode && b.admissionComplete && b.tokens == cfg.concurrency
    && |b.requestIds| == cfg.concurrency && NoRepeat(b.requestIds)
  }

  /** The `count` batches before `end` are full and of the requests of the last of them. */
  ghost predicate FullRun(cfg: Config, history: seq<Submission>, end: int, count: int) {
    && 0 <= count <= end <= |history|
    && forall i :: end - count <= i < end ==>
         FullBatch(cfg, history[i].batch) && multiset(history[i].batch.requestIds) == multiset(history[end - 1].batch.requestIds)
  }

  ghost predicate AllSeen(cfg: Config, history: seq<Submission>) {
    forall i :: 0 <= i < |history| ==> history[i] == Seen(cfg, history[i].batch)
  }

  lemma RunIsFull(cfg: Config, history: seq<Submission>, end: int, count: int)
    requires AllSeen(cfg, history)
    ensures EligibleRun(history, end, count) <==> FullRun(cfg, history, end, count)
  {
    if 0 <= count <= end <= |history| {
      forall i | end - count <= i < end
        ensures history[i].eligible && history[i].ids == history[end - 1].ids <==>
                FullBatch(cfg, history[i].batch)
                && multiset(history[i].batch.requestIds) == multiset(history[end - 1].batch.requestIds)
      {
        SortedSame(history[i].batch.requestIds, history[end - 1].batch.requestIds);
      }
    }
  }

  /** The measured requests in rising order, each with the context it was submitted with and `targetSteps` more at the end. */
  ghost predicate ReportsRequests(cfg: Config, r: WindowResult, ids: seq<int>, contexts: seq<int>) {
    && (forall i, j :: 0 <= i < j < |r.requestIds| ==> r.requestIds[i] < r.requestIds[j])
    && Ahead(r.requestIds, r.contextsStart, ids, contexts, 0)
    && Ahead(r.requestIds, r.contextsEnd, ids, contexts, cfg.targetSteps)
  }

  lemma Rising(ids: seq<int>, sorted: seq<int>)
    requires sorted == SortedIds(ids) && Distinct(ids)
    ensures forall i, j :: 0 <= i < j < |sorted| ==> sorted[i] < sorted[j]
    ensures multiset(ids) == multiset(sorted)
  {
    IntLeOrder();
    SortSorted(IntLe, ids);
    SortPermutation(IntLe, ids);
    DistinctPermutation(ids, sorted);
    forall i, j | 0 <= i < j < |sorted| ensures sorted[i] < sorted[j] {
      assert IntLe(sorted[i], sorted[j]);
    }
  }

  lemma ResultReads(cfg: Config, t: Trace, r: WindowResult)
    requires WindowRows(cfg, t, r) && ContextsAdvance(cfg, r) && StartContexts(cfg, t, r) && cfg.warmupSteps >= 1
    ensures 0 <= |t.history| - cfg.targetSteps < |t.history|
    ensures var b := t.history[|t.history| - cfg.targetSteps].batch; ReportsRequests(cfg, r, b.requestIds, b.contexts)
  {
    var b := t.history[|t.history| - cfg.targetSteps].batch;
    assert SortedIds(b.requestIds) == r.requestIds && Eligible(cfg, b);
    Rising(b.requestIds, r.requestIds);
    PairsAhead(r.requestIds, r.contextsStart, b.requestIds, b.contexts);
    assert Ahead(r.requestIds, r.contextsEnd, r.requestIds, r.contextsStart, cfg.targetSteps) by {
      forall i, j | 0 <= i < |r.requestIds| && 0 <= j < |r.requestIds| && r.requestIds[i] == r.requestIds[j]
        ensures r.contextsEnd[i] == r.contextsStart[j] + cfg.targetSteps
      {
        assert i == j;
      }
    }
    AheadSum(r.requestIds, r.contextsEnd, r.requestIds, r.contextsStart, b.requestIds, b.contexts, cfg.targetSteps, 0);
  }
}
