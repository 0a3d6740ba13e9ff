/** What a finished measurement means, for every run of the window that raised nothing. */
module DecodeWindowTheorems {
  import opened Wrappers
  import opened Sorting
  import opened DecodeWindow
  import opened RequestOrder
  import opened DecodeWindowHistory

  // ----- the history is the batches as they were submitted

  /** The row keeps the batch's requests, each with the context length the batch gave it. */
  ghost predicate Faithful(cfg: Config, sub: Submission, row: Row) {
    && sub == Seen(cfg, sub.batch)
    && sub.batch.preemptions == 0
    && |row.requestIds| == |row.contexts| == |sub.batch.requestIds| == |sub.batch.contexts|
    && multiset(Zip(row.requestIds, row.contexts)) == multiset(Zip(sub.batch.requestIds, sub.batch.contexts))
    && (forall i :: 0 <= i < |sub.batch.contexts| ==> sub.batch.contexts[i] >= 0)
  }

  ghost predicate FaithfulTrace(cfg: Config, t: Trace) {
    && |t.history| == |t.state.records|
    && forall i :: 0 <= i < |t.history| ==> Faithful(cfg, t.history[i], t.state.records[i])
  }

  lemma NewRowFaithful(cfg: Config, ticket: nat, b: Batch, measured: bool)
    requires |b.contexts| == |b.requestIds| && b.preemptions == 0
    requires forall i :: 0 <= i < |b.contexts| ==> b.contexts[i] >= 0
    ensures Faithful(cfg, Seen(cfg, b), NewRow(ticket, b, measured))
  {
    SortedPairsAlign(b);
  }

  /** A call adds at most the submitted row, and changes older rows in completion only. */
  lemma StepRecords(s: State, e: Event)
    requires WellFormed(s) && Step(s, e).reply.Returned?
    ensures var s' := Step(s, e).state; |s.records| <= |s'.records| && SameShape(s.records, s'.records[..|s.records|])
    ensures var r := Step(s, e);
            if e.Submit? && r.reply.ticket.Some?
            then |e.batch.contexts| == |e.batch.requestIds| && e.batch.preemptions == 0
                 && (forall i :: 0 <= i < |e.batch.contexts| ==> e.batch.contexts[i] >= 0)
                 && r.state.records == s.records + [NewRow(s.submitted, e.batch, s.started != None)]
            else |r.state.records| == |s.records|
  {
  }

  lemma NextFaithful(cfg: Config, t: Trace, e: Event)
    requires ValidConfig(cfg) && WellFormed(t.state) && t.state.cfg == cfg
    requires FaithfulTrace(cfg, t) && Next(cfg, t, e).Some?
    ensures FaithfulTrace(cfg, Next(cfg, t, e).value)
  {
    var t' := Next(cfg, t, e).value;
    StepRecords(t.state, e);
    if |t'.state.records| > |t.state.records| {
      NewRowFaithful(cfg, t.state.submitted, e.batch, t.state.started != None);
    }
    forall i | 0 <= i < |t'.history| ensures Faithful(cfg, t'.history[i], t'.state.records[i]) {
      if i < |t.history| {
        assert t'.history[i] == t.history[i];
        assert Faithful(cfg, t.history[i], t.state.records[i]);
        assert t'.state.records[..|t.state.records|][i] == t'.state.records[i];
      }
    }
  }

  lemma {:induction false} RunFaithful(cfg: Config, events: seq<Event>)
    requires ValidConfig(cfg) && Run(cfg, events).Some?
    ensures FaithfulTrace(cfg, Run(cfg, events).value)
  {
    if events != [] {
      var front := events[..|events| - 1];
      RunFaithful(cfg, front);
      RunExplained(cfg, front);
      NextFaithful(cfg, Run(cfg, front).value, events[|events| - 1]);
    }
  }

  // ----- sums and contexts over the measured rows

  ghost function CompletedTokens(rows: seq<Row>): int {
    if rows == [] then 0
    else CompletedTokens(rows[1..]) + (if rows[0].completedTokens.Some? then rows[0].completedTokens.value else 0)
  }

  lemma {:induction false} UniformTokens(rows: seq<Row>, c: int)
    requires forall i :: 0 <= i < |rows| ==> rows[i].completedTokens == Some(c)
    ensures CompletedTokens(rows) == |rows| * c
  {
    if rows != [] {
      UniformTokens(rows[1..], c);
      assert |rows| * c == (|rows| - 1) * c + c;
    }
  }

  lemma {:induction false} ContextChain(rows: seq<Row>, open: int, i: int)
    requires 0 <= open <= i < |rows|
    requires forall k :: open < k < |rows| ==> rows[k].contexts == Bump(rows[k - 1].contexts)
    ensures |rows[i].contexts| == |rows[open].contexts|
    ensures forall j :: 0 <= j < |rows[open].contexts| ==>
              rows[i].contexts[j] == rows[open].contexts[j] + (i - open)
    decreases i
  {
    if i > open {
      ContextChain(rows, open, i - 1);
    }
  }

  // ----- the theorem

  /** The measured rows are the last ones, right behind the first eligible run that was long enough. */
  ghost predicate WindowShape(cfg: Config, t: Trace) {
    var rows, n, open := t.state.records, |t.history|, |t.history| - cfg.targetSteps;
    && |rows| == n && cfg.targetSteps >= 1 && 1 <= cfg.warmupSteps <= open
    && (forall i :: 0 <= i < n ==> rows[i].ticket == i && (rows[i].measured <==> open <= i))
    && LongestRun(t.history, open, cfg.warmupSteps)
    && (forall p :: 0 <= p < open ==> !EligibleRun(t.history, p, cfg.warmupSteps))
  }

  /** The rows the result stands for, and what was submitted for them. */
  ghost predicate WindowRows(cfg: Config, t: Trace, r: WindowResult) {
    var rows, history, n, open := t.state.records, t.history, |t.history|, |t.history| - cfg.targetSteps;
    && WindowShape(cfg, t)
    && Distinct(r.requestIds) && |r.requestIds| == cfg.concurrency
    && (forall i :: open <= i < n ==>
          rows[i].completed && rows[i].requestIds == r.requestIds && rows[i].completedTokens == Some(cfg.concurrency))
    && (forall i :: open - cfg.warmupSteps <= i < n ==>
          Eligible(cfg, history[i].batch) && SortedIds(history[i].batch.requestIds) == r.requestIds)
  }

  ghost predicate Scalars(cfg: Config, s: State, r: WindowResult) {
    && 1 <= cfg.targetSteps <= |s.records|
    && r.decodeSteps == r.completedSteps == cfg.targetSteps
    && r.decodeTokens == cfg.concurrency * cfg.targetSteps
    && r.elapsed == r.finished - r.started > 0.0
    && r.throughput == Some(r.decodeTokens as real / r.elapsed)
    && r.synchronizations == s.syncs == 2
  }

  ghost predicate ContextsAdvance(cfg: Config, r: WindowResult) {
    && |r.contextsStart| == |r.contextsEnd| == |r.requestIds|
    && forall j :: 0 <= j < |r.requestIds| ==> r.contextsEnd[j] == r.contextsStart[j] + cfg.targetSteps
  }

  /** The numbers the result reports. */
  ghost predicate WindowTotals(cfg: Config, s: State, r: WindowResult) {
    && Scalars(cfg, s, r) && ContextsAdvance(cfg, r)
    && r.decodeTokens == CompletedTokens(s.records[|s.records| - cfg.targetSteps..])
  }

  /** The start contexts are those of the first measured batch, each beside its own request. */
  ghost predicate StartContexts(cfg: Config, t: Trace, r: WindowResult) {
    var open := |t.history| - cfg.targetSteps;
    && 0 <= open < |t.history| && |r.contextsStart| == |r.requestIds|
    && var b := t.history[open].batch;
       |b.contexts| == |b.requestIds|
       && multiset(Zip(r.requestIds, r.contextsStart)) == multiset(Zip(b.requestIds, b.contexts))
  }

  /** The warmup and the measurement are one eligible run of the result's requests. */
  lemma ResultRun(cfg: Config, t: Trace)
    requires Good(cfg, t) && t.state.result.Some?
    ensures var s, n := t.state, |t.history|;
            && Measuring(s, t.history) && Closed(s, s.result.value) && s.steps == cfg.targetSteps && s.cfg == cfg
            && OpenedAt(cfg, t.history, n - s.steps) && MeasuredFrom(s.records, n - s.steps) && n == |s.records|
            && EligibleRun(t.history, n, cfg.warmupSteps + s.steps) && s.result.value.requestIds == t.history[n - 1].ids
  {
  }

  lemma RunRow(cfg: Config, t: Trace, i: int)
    requires Good(cfg, t) && FaithfulTrace(cfg, t) && t.state.result.Some?
    requires |t.history| - cfg.targetSteps - cfg.warmupSteps <= i < |t.history| && 0 <= i
    ensures Eligible(cfg, t.history[i].batch) && SortedIds(t.history[i].batch.requestIds) == t.state.result.value.requestIds
  {
    ResultRun(cfg, t);
    assert Faithful(cfg, t.history[i], t.state.records[i]);
  }

  lemma MeasuredRow(cfg: Config, t: Trace, i: int)
    requires Good(cfg, t) && FaithfulTrace(cfg, t) && t.state.result.Some?
    requires |t.history| - cfg.targetSteps <= i < |t.history| && 0 <= i
    ensures var row := t.state.records[i];
            row.completed && row.requestIds == t.state.result.value.requestIds && row.completedTokens == Some(cfg.concurrency)
  {
    ResultRun(cfg, t);
    RunRow(cfg, t, i);
    assert Faithful(cfg, t.history[i], t.state.records[i]);
    assert RowOf(t.state.records[i], t.history[i], i) && Accounted(t.state.records[i]);
    assert i !in t.state.pending;
  }

  lemma ResultIds(cfg: Config, t: Trace)
    requires Good(cfg, t) && FaithfulTrace(cfg, t) && t.state.result.Some?
    ensures Distinct(t.state.result.value.requestIds) && |t.state.result.value.requestIds| == cfg.concurrency
  {
    var last := |t.history| - 1;
    ResultRun(cfg, t);
    RunRow(cfg, t, last);
    SortPermutation(IntLe, t.history[last].batch.requestIds);
    DistinctPermutation(t.history[last].batch.requestIds, t.state.result.value.requestIds);
  }

  lemma ResultShape(cfg: Config, t: Trace)
    requires Good(cfg, t) && t.state.result.Some?
    ensures WindowShape(cfg, t)
  {
    ResultRun(cfg, t);
    assert forall i :: 0 <= i < |t.history| ==> RowOf(t.state.records[i], t.history[i], i);
  }

  lemma ResultRows(cfg: Config, t: Trace)
    requires Good(cfg, t) && FaithfulTrace(cfg, t) && t.state.result.Some?
    ensures WindowRows(cfg, t, t.state.result.value)
  {
    var r, open := t.state.result.value, |t.history| - cfg.targetSteps;
    ResultShape(cfg, t);
    ResultIds(cfg, t);
    RunRows(cfg, t);
    MeasuredRows(cfg, t);
  }

  lemma RunRows(cfg: Config, t: Trace)
    requires Good(cfg, t) && FaithfulTrace(cfg, t) && t.state.result.Some? && WindowShape(cfg, t)
    ensures forall i :: |t.history| - cfg.targetSteps - cfg.warmupSteps <= i < |t.history| ==>
              Eligible(cfg, t.history[i].batch) && SortedIds(t.history[i].batch.requestIds) == t.state.result.value.requestIds
  {
    forall i | |t.history| - cfg.targetSteps - cfg.warmupSteps <= i < |t.history|
      ensures Eligible(cfg, t.history[i].batch) && SortedIds(t.history[i].batch.requestIds) == t.state.result.value.requestIds
    {
      RunRow(cfg, t, i);
    }
  }

  lemma MeasuredRows(cfg: Config, t: Trace)
    requires Good(cfg, t) && FaithfulTrace(cfg, t) && t.state.result.Some? && WindowShape(cfg, t)
    ensures forall i :: |t.history| - cfg.targetSteps <= i < |t.history| ==>
              var row := t.state.records[i];
              row.completed && row.requestIds == t.state.result.value.requestIds && row.completedTokens == Some(cfg.concurrency)
  {
    forall i | |t.history| - cfg.targetSteps <= i < |t.history|
      ensures var row := t.state.records[i];
              row.completed && row.requestIds == t.state.result.value.requestIds && row.completedTokens == Some(cfg.concurrency)
    {
      MeasuredRow(cfg, t, i);
    }
  }

  lemma ResultContexts(cfg: Config, t: Trace)
    requires Good(cfg, t) && t.state.result.Some?
    ensures var r := t.state.result.value;
            |r.contextsStart| == |r.contextsEnd|
            && (forall j :: 0 <= j < |r.contextsEnd| ==> r.contextsEnd[j] == r.contextsStart[j] + cfg.targetSteps)
  {
    var s, r := t.state, t.state.result.value;
    assert Measuring(s, t.history) && Closed(s, r);
    ContextChain(s.records, |s.records| - s.steps, |s.records| - 1);
  }

  lemma StartIsOpen(cfg: Config, t: Trace)
    requires Good(cfg, t) && t.state.result.Some?
    ensures var open := |t.history| - cfg.targetSteps;
            0 <= open < |t.history| == |t.state.records| && t.state.result.value.contextsStart == t.state.records[open].contexts
  {
    ResultRun(cfg, t);
  }

  lemma AlignedRow(cfg: Config, t: Trace, i: int, ids: seq<int>, contexts: seq<int>)
    requires FaithfulTrace(cfg, t) && 0 <= i < |t.history|
    requires t.state.records[i].requestIds == ids && t.state.records[i].contexts == contexts
    ensures |ids| == |contexts| && |t.history[i].batch.contexts| == |t.history[i].batch.requestIds|
    ensures multiset(Zip(ids, contexts)) == multiset(Zip(t.history[i].batch.requestIds, t.history[i].batch.contexts))
  {
    assert Faithful(cfg, t.history[i], t.state.records[i]);
  }

  lemma RowStarts(cfg: Config, t: Trace, r: WindowResult)
    requires FaithfulTrace(cfg, t) && 0 <= |t.history| - cfg.targetSteps < |t.history| == |t.state.records|
    requires var row := t.state.records[|t.history| - cfg.targetSteps]; row.requestIds == r.requestIds && row.contexts == r.contextsStart
    ensures StartContexts(cfg, t, r)
  {
    AlignedRow(cfg, t, |t.history| - cfg.targetSteps, r.requestIds, r.contextsStart);
  }

  lemma StartAligned(cfg: Config, t: Trace)
    requires Good(cfg, t) && FaithfulTrace(cfg, t) && t.state.result.Some?
    ensures StartContexts(cfg, t, t.state.result.value)
  {
    var r, open := t.state.result.value, |t.history| - cfg.targetSteps;
    StartIsOpen(cfg, t);
    MeasuredRow(cfg, t, open);
    RowStarts(cfg, t, r);
  }

  lemma RowTokens(cfg: Config, t: Trace, r: WindowResult)
    requires WindowRows(cfg, t, r)
    ensures CompletedTokens(t.state.records[|t.state.records| - cfg.targetSteps..]) == cfg.concurrency * cfg.targetSteps
  {
    UniformTokens(t.state.records[|t.state.records| - cfg.targetSteps..], cfg.concurrency);
  }

  lemma ResultScalars(cfg: Config, t: Trace)
    requires Good(cfg, t) && t.state.result.Some?
    ensures Scalars(cfg, t.state, t.state.result.value)
  {
    var s := t.state;
    assert Measuring(s, t.history) && Closed(s, s.result.value);
    assert s.steps * cfg.concurrency == cfg.concurrency * cfg.targetSteps;
  }

  lemma ResultAdvance(cfg: Config, t: Trace)
    requires Good(cfg, t) && FaithfulTrace(cfg, t) && t.state.result.Some?
    ensures ContextsAdvance(cfg, t.state.result.value) && StartContexts(cfg, t, t.state.result.value)
  {
    ResultRows(cfg, t);
    ResultContexts(cfg, t);
    StartAligned(cfg, t);
  }

  lemma ResultSum(cfg: Config, t: Trace)
    requires Good(cfg, t) && FaithfulTrace(cfg, t) && t.state.result.Some?
    ensures 0 <= cfg.targetSteps <= |t.state.records|
    ensures CompletedTokens(t.state.records[|t.state.records| - cfg.targetSteps..]) == cfg.concurrency * cfg.targetSteps
  {
    ResultRows(cfg, t);
    RowTokens(cfg, t, t.state.result.value);
  }

  lemma ResultTotals(cfg: Config, t: Trace)
    requires Good(cfg, t) && FaithfulTrace(cfg, t) && t.state.result.Some?
    ensures WindowTotals(cfg, t.state, t.state.result.value)
  {
    ResultScalars(cfg, t);
    ResultAdvance(cfg, t);
    ResultSum(cfg, t);
  }

  /**
   Every run that produced a result measured exactly its last `targetSteps` submissions, all of
   one full request set, right after the first `warmupSteps` eligible submissions in a row of that
   same set; the reported work is the work completed on those rows, and the reported start contexts
   are those its first batch was submitted with.
   */
  lemma MeasuredWindow(cfg: Config, events: seq<Event>)
    requires ValidConfig(cfg) && Run(cfg, events).Some?
    requires Run(cfg, events).value.state.result.Some?
    ensures var t := Run(cfg, events).value;
            && WindowRows(cfg, t, t.state.result.value) && WindowTotals(cfg, t.state, t.state.result.value)
            && StartContexts(cfg, t, t.state.result.value)
  {
    var t := Run(cfg, events).value;
    RunExplained(cfg, events);
    RunFaithful(cfg, events);
    ResultRows(cfg, t);
    ResultTotals(cfg, t);
    ResultAdvance(cfg, t);
  }

  /** Before the opening edge the warmup counter is the longest eligible run that ends the history. */
  lemma WarmupIsLongestRun(cfg: Config, events: seq<Event>)
    requires ValidConfig(cfg) && Run(cfg, events).Some?
    requires Run(cfg, events).value.state.started == None
    ensures var t := Run(cfg, events).value;
            LongestRun(t.history, |t.history|, t.state.warmed) && t.state.warmed <= cfg.warmupSteps
    ensures var t := Run(cfg, events).value; forall i :: 0 <= i < |t.history| ==> t.history[i] == Seen(cfg, t.history[i].batch)
  {
    RunExplained(cfg, events);
    RunFaithful(cfg, events);
    var t := Run(cfg, events).value;
    forall i | 0 <= i < |t.history| ensures t.history[i] == Seen(cfg, t.history[i].batch) {
      assert Faithful(cfg, t.history[i], t.state.records[i]);
    }
  }

  /** The guard against incomplete work cannot fire after a run that raised nothing. */
  lemma IncompleteWorkUnreachable(s: State, history: seq<Submission>, now: real, graph: GraphStats)
    requires Explained(s, history) && WellFormed(s)
    ensures BoundaryStep(s, now, graph).reply != Raised(IncompleteWork)
  {
    if NeedsBoundary(s) && s.pending == {} && s.started.Some? {
      ClosingEdge(s, history);
      GraphDeltaErrors(s.graphBefore.value, graph, s.steps);
    }
  }

  lemma RunNeverIncomplete(cfg: Config, events: seq<Event>, now: real, graph: GraphStats)
    requires ValidConfig(cfg) && Run(cfg, events).Some?
    ensures BoundaryStep(Run(cfg, events).value.state, now, graph).reply != Raised(IncompleteWork)
  {
    RunExplained(cfg, events);
    IncompleteWorkUnreachable(Run(cfg, events).value.state, Run(cfg, events).value.history, now, graph);
  }

  /** A result is final: later calls that return leave the whole window as it was. */
  lemma ResultFinal(s: State, history: seq<Submission>, e: Event)
    requires Explained(s, history) && WellFormed(s) && s.result.Some?
    ensures Step(s, e).state == s
    ensures Step(s, e).reply == if e.Complete? && e.ticket.Some? then Raised(UnknownTicket) else Returned(None)
  {
  }

  // ----- the graph counters

  /** The counters between the edges: no capture, no eager step, one replay per measured step. */
  ghost predicate Replayed(before: Counters, after: Counters, steps: int) {
    after == Counters(before.capture, before.replay + steps, before.eager)
  }

  lemma {:induction false} RanksDeltaExact(before: seq<Counters>, after: seq<Counters>, steps: int)
    requires |before| == |after|
    ensures RanksDelta(before, after, steps).Ok? <==>
            forall i :: 0 <= i < |before| ==> Replayed(before[i], after[i], steps)
    ensures RanksDelta(before, after, steps).Ok? ==>
              RanksDelta(before, after, steps).value == seq(|before|, _ => Counters(0, steps, 0))
    ensures RanksDelta(before, after, steps).Err? ==> RanksDelta(before, after, steps).error == GraphContract
  {
    if before != [] {
      RanksDeltaExact(before[1..], after[1..], steps);
      assert before == [before[0]] + before[1..] && after == [after[0]] + after[1..];
      if forall i :: 0 <= i < |before| - 1 ==> Replayed(before[1..][i], after[1..][i], steps) {
        assert forall i :: 1 <= i < |before| ==> before[i] == before[1..][i - 1] && after[i] == after[1..][i - 1];
      } else {
        var i :| 0 <= i < |before| - 1 && !Replayed(before[1..][i], after[1..][i], steps);
        assert !Replayed(before[i + 1], after[i + 1], steps);
      }
    }
  }

  lemma GraphDeltaErrors(before: GraphStats, after: GraphStats, steps: int)
    ensures GraphDelta(before, after, steps).Err? ==> GraphDelta(before, after, steps).error in {LostRanks, GraphContract}
  {
    if before.Ranks? && after.Ranks? && |before.ranks| == |after.ranks| {
      RanksDeltaExact(before.ranks, after.ranks, steps);
    }
  }

  /** The counters are accepted exactly when every rank is still there and replayed every step. */
  lemma GraphDeltaExact(before: GraphStats, after: GraphStats, steps: int)
    ensures GraphDelta(before, after, steps).Ok? <==>
            match before
            case Single(b) => after.Single? && Replayed(b, after.rank, steps)
            case Ranks(bs) => after.Ranks? && |bs| == |after.ranks| >= 1
                              && forall i :: 0 <= i < |bs| ==> Replayed(bs[i], after.ranks[i], steps)
    ensures GraphDelta(before, after, steps).Ok? ==>
              GraphDelta(before, after, steps).value ==
              match before
              case Single(_) => Single(Counters(0, steps, 0))
              case Ranks(bs) => Ranks(seq(|bs|, _ => Counters(0, steps, 0)))
  {
    if before.Ranks? && after.Ranks? && |before.ranks| == |after.ranks| {
      RanksDeltaExact(before.ranks, after.ranks, steps);
    }
  }
}
