/**
 What every run of the window has done, in terms of the batches submitted to it.

 A run is a list of calls none of which raised. `Trace` pairs the state with the batches that
 were given a ticket; `Explained` is the invariant that ties the two together.
 */
module DecodeWindowHistory {
  import opened Wrappers
  import opened DecodeWindow
  import opened RequestOrder

  datatype Trace = Trace(state: State, history: seq<Submission>)

  /** Mentioned where a definition guarded by it is needed; elsewhere the verifier need not look inside. */
  ghost predicate Unfold(key: int) { true }

  ghost function Start(cfg: Config): Trace { Trace(Init(cfg), []) }

  /** The batches that got a ticket, after one more call. */
  ghost function Extend(cfg: Config, history: seq<Submission>, e: Event, reply: Reply): seq<Submission> {
    if e.Submit? && reply.Returned? && reply.ticket.Some? then history + [Seen(cfg, e.batch)] else history
  }

  ghost function Next(cfg: Config, t: Trace, e: Event): (r: Option<Trace>)
    requires WellFormed(t.state)
    ensures r.Some? ==> WellFormed(r.value.state)
  {
    var r := Step(t.state, e);
    if r.reply.Raised? then None else Some(Trace(r.state, Extend(cfg, t.history, e, r.reply)))
  }

  /** The run of `events` from a new window, or None if some call raised. */
  ghost function Run(cfg: Config, events: seq<Event>): (r: Option<Trace>)
    requires ValidConfig(cfg)
    ensures r.Some? ==> WellFormed(r.value.state)
  {
    if events == [] then Some(Start(cfg))
    else
      match Run(cfg, events[..|events| - 1])
      case None => None
      case Some(t) => Next(cfg, t, events[|events| - 1])
  }

  // ----- eligible runs in a history

  /** The `k` batches before position `end` are eligible and share one request set. */
  ghost predicate EligibleRun(history: seq<Submission>, end: int, k: int) {
    && 0 <= k <= end <= |history|
    && forall i :: end - k <= i < end ==>
         history[i].eligible && history[i].ids == history[end - 1].ids
  }

  ghost predicate LongestRun(history: seq<Submission>, end: int, k: int) {
    && EligibleRun(history, end, k)
    && forall j :: k < j <= end ==> !EligibleRun(history, end, j)
  }

  // ----- the invariant

  /** Row `i` is the ledger entry of submission `sub`. */
  ghost predicate RowOf(row: Row, sub: Submission, i: nat) {
    && row.ticket == i
    && row.pureDecode == sub.batch.isDecode
    && row.tokens == sub.batch.tokens
    && row.requestIds == sub.ids
  }

  ghost predicate Accounted(row: Row) {
    && (row.completed && row.pureDecode ==> row.completedTokens == Some(row.tokens))
    && (!row.completed ==> row.completedTokens == None)
  }

  ghost predicate Ledger(s: State, history: seq<Submission>) {
    && |history| == |s.records| == s.submitted
    && (forall i :: 0 <= i < |history| ==> RowOf(s.records[i], history[i], i))
    && (forall i :: 0 <= i < |history| ==> Accounted(s.records[i]))
    && (forall t :: t in s.pending <==> 0 <= t < |s.records| && !s.records[t].completed)
  }

  /** Before the opening edge: `warmed` is the longest eligible run so far, and no earlier run was long enough. */
  ghost predicate Warming(s: State, history: seq<Submission>) {
    && s.started == None && s.result == None && s.lastContexts == None
    && s.steps == 0 && s.tokens == 0 && s.syncs == 0
    && 0 <= s.warmed <= s.cfg.warmupSteps
    && LongestRun(history, |history|, s.warmed)
    && s.ids == (if s.warmed == 0 then None else Some(history[|history| - 1].ids))
    && (forall p :: 0 <= p < |history| ==> !EligibleRun(history, p, s.cfg.warmupSteps))
    && (forall i :: 0 <= i < |s.records| ==> !s.records[i].measured)
  }

  /** The window opened at position `open`, behind the first eligible run that was long enough, which has gone on since. */
  ghost predicate OpenedAt(cfg: Config, history: seq<Submission>, open: int) {
    && 1 <= cfg.warmupSteps <= open <= |history|
    && LongestRun(history, open, cfg.warmupSteps)
    && EligibleRun(history, |history|, cfg.warmupSteps + |history| - open)
    && (forall p :: 0 <= p < open ==> !EligibleRun(history, p, cfg.warmupSteps))
  }

  /** Exactly the rows from `open` on are measured, and their contexts advance by one token a step. */
  ghost predicate MeasuredFrom(rows: seq<Row>, open: int) {
    && (forall i :: 0 <= i < |rows| ==> (rows[i].measured <==> open <= i))
    && (forall i :: 0 <= open < i < |rows| ==> rows[i].contexts == Bump(rows[i - 1].contexts))
  }

  /** After the opening edge: everything since is measured, eligible and advances by one token. */
  ghost predicate Measuring(s: State, history: seq<Submission>) {
    && s.started.Some? && s.graphBefore.Some?
    && s.warmed == s.cfg.warmupSteps
    && 0 <= s.steps <= s.cfg.targetSteps
    && s.tokens == s.steps * s.cfg.concurrency
    && |s.records| == |history|
    && OpenedAt(s.cfg, history, |history| - s.steps)
    && MeasuredFrom(s.records, |history| - s.steps)
    && s.ids == Some(history[|history| - 1].ids)
    && s.lastContexts == (if s.steps == 0 then None else Some(s.records[|history| - 1].contexts))
    && s.syncs == (if s.result == None then 1 else 2)
  }

  ghost predicate Closed(s: State, r: WindowResult) {
    var n := |s.records|;
    && s.pending == {}
    && s.started.Some? && s.graphBefore.Some? && s.ids.Some?
    && s.steps == s.cfg.targetSteps && 1 <= s.steps <= n
    && r.scope == BoundarySyncV2
    && r.concurrency == s.cfg.concurrency
    && r.requestIds == s.ids.value
    && r.discardedSteps == s.cfg.warmupSteps
    && r.decodeSteps == r.completedSteps == s.cfg.targetSteps
    && r.decodeTokens == s.tokens
    && r.started == s.started.value
    && r.elapsed == r.finished - r.started > 0.0
    && r.throughput == Some(r.decodeTokens as real / r.elapsed)
    && r.synchronizations == 2
    && (exists after :: GraphDelta(s.graphBefore.value, after, s.steps) == Ok(r.graphDelta))
    && r.contextsStart == s.records[n - s.steps].contexts
    && r.contextsEnd == Bump(s.records[n - 1].contexts)
  }

  ghost predicate Explained(s: State, history: seq<Submission>) {
    && ValidConfig(s.cfg)
    && Ledger(s, history)
    && (Warming(s, history) || Measuring(s, history))
    && (s.result.Some? ==> Measuring(s, history) && Closed(s, s.result.value))
  }

  // ----- every call keeps the invariant

  lemma InitExplained(cfg: Config)
    requires ValidConfig(cfg)
    ensures Explained(Init(cfg), [])
  {
    assert LongestRun([], 0, 0);
    assert Warming(Init(cfg), []);
  }

  /** Two ledgers that differ in completion only tell the same story. */
  ghost predicate SameShape(rows: seq<Row>, rows': seq<Row>) {
    && |rows| == |rows'|
    && forall i :: 0 <= i < |rows| ==>
         rows'[i] == rows[i].(completed := rows'[i].completed, completedTokens := rows'[i].completedTokens)
  }

  lemma CompleteLedger(s: State, history: seq<Submission>, ticket: Option<nat>, n: Option<int>)
    requires Ledger(s, history) && CompleteStep(s, ticket, n).reply.Returned?
    ensures Ledger(CompleteStep(s, ticket, n).state, history)
    ensures SameShape(s.records, CompleteStep(s, ticket, n).state.records)
  {
    var s' := CompleteStep(s, ticket, n).state;
    if ticket.Some? {
      assert RowOf(s.records[ticket.value], history[ticket.value], ticket.value);
      assert forall i :: 0 <= i < |history| && i != ticket.value ==> s'.records[i] == s.records[i];
    }
  }

  /** Completing a ticket touches its row's completion fields and nothing else. */
  lemma CompleteExplained(s: State, history: seq<Submission>, ticket: Option<nat>, n: Option<int>)
    requires Explained(s, history) && CompleteStep(s, ticket, n).reply.Returned?
    ensures Explained(CompleteStep(s, ticket, n).state, history)
  {
    var s' := CompleteStep(s, ticket, n).state;
    CompleteLedger(s, history, ticket, n);
    if ticket.Some? {
      assert ticket.value in s.pending;
      assert s.result == None;
      assert SameButCompletion(s, s');
      if Warming(s, history) {
        CompleteWarming(s, s', history);
      } else {
        CompleteMeasuring(s, s', history);
      }
    }
  }

  ghost predicate SameButCompletion(s: State, s': State) {
    s' == s.(pending := s'.pending, records := s'.records) && SameShape(s.records, s'.records)
  }

  lemma CompleteWarming(s: State, s': State, history: seq<Submission>)
    requires Warming(s, history) && SameButCompletion(s, s')
    ensures Warming(s', history)
  {
  }

  lemma CompleteMeasuring(s: State, s': State, history: seq<Submission>)
    requires Measuring(s, history) && SameButCompletion(s, s')
    ensures Measuring(s', history)
  {
  }

  /** An appended batch leaves the runs that end before it as they were. */
  lemma RunKept(history: seq<Submission>, sub: Submission, end: int, k: int)
    requires end <= |history|
    ensures EligibleRun(history + [sub], end, k) <==> EligibleRun(history, end, k)
  {
    var h := history + [sub];
    assert forall i :: 0 <= i < |history| ==> h[i] == history[i];
  }

  lemma RunsKept(history: seq<Submission>, sub: Submission, k: int)
    ensures forall end :: end <= |history| ==>
              (EligibleRun(history + [sub], end, k) <==> EligibleRun(history, end, k))
  {
    forall end | end <= |history|
      ensures EligibleRun(history + [sub], end, k) <==> EligibleRun(history, end, k)
    {
      RunKept(history, sub, end, k);
    }
  }

  lemma LongestKept(history: seq<Submission>, sub: Submission, end: int, k: int)
    requires end <= |history| && LongestRun(history, end, k)
    ensures LongestRun(history + [sub], end, k)
  {
    RunKept(history, sub, end, k);
    forall j | k < j <= end ensures !EligibleRun(history + [sub], end, j) {
      RunKept(history, sub, end, j);
    }
  }

  lemma RunShrinks(history: seq<Submission>, sub: Submission, j: int)
    requires EligibleRun(history + [sub], |history| + 1, j) && j >= 2
    ensures EligibleRun(history, |history|, j - 1)
    ensures history[|history| - 1].ids == sub.ids
  {
    var h := history + [sub];
    forall i | |history| - (j - 1) <= i < |history|
      ensures history[i].eligible && history[i].ids == sub.ids
    {
      assert h[i] == history[i];
    }
  }

  lemma RunGrows(history: seq<Submission>, sub: Submission, k: int)
    requires EligibleRun(history, |history|, k) && sub.eligible
    requires k >= 1 ==> history[|history| - 1].ids == sub.ids
    ensures EligibleRun(history + [sub], |history| + 1, k + 1)
  {
  }

  /** The warmup counter after one more batch, exactly as `observe` computes it, is again the longest run. */
  lemma WarmupCounter(history: seq<Submission>, sub: Submission, warmed: int, ids: Option<seq<int>>)
    requires LongestRun(history, |history|, warmed)
    requires ids == (if warmed == 0 then None else Some(history[|history| - 1].ids))
    ensures var warmed' := if !sub.eligible then 0 else if Some(sub.ids) != ids then 1 else warmed + 1;
            LongestRun(history + [sub], |history| + 1, warmed')
  {
    var h := history + [sub];
    var n := |history| + 1;
    assert h[n - 1] == sub;
    if !sub.eligible {
      assert forall j :: 0 < j <= n ==> !EligibleRun(h, n, j);
    } else if Some(sub.ids) != ids {
      RunGrows(history, sub, 0);
      forall j | 1 < j <= n ensures !EligibleRun(h, n, j) {
        if EligibleRun(h, n, j) {
          RunShrinks(history, sub, j);
          assert false;
        }
      }
    } else {
      RunGrows(history, sub, warmed);
      forall j | warmed + 1 < j <= n ensures !EligibleRun(h, n, j) {
        if EligibleRun(h, n, j) {
          RunShrinks(history, sub, j);
        }
      }
    }
  }

  /** What `submit` passes on: a fresh, incomplete row for the submission. */
  ghost predicate FreshRow(s: State, sub: Submission, row: Row) {
    && RowOf(row, sub, s.submitted)
    && !row.completed && row.completedTokens == None
    && row.measured == (s.started != None)
    && (sub.eligible ==> sub.batch.tokens == s.cfg.concurrency)
  }

  lemma EnterLedger(s: State, history: seq<Submission>, sub: Submission, row: Row)
    requires Ledger(s, history) && FreshRow(s, sub, row)
    requires Enter(s, sub, row).reply.Returned?
    ensures Ledger(Enter(s, sub, row).state, history + [sub])
  {
    var s' := Enter(s, sub, row).state;
    assert s'.records == s.records + [row];
    assert s'.pending == s.pending + {s.submitted};
  }

  lemma EnterWarming(s: State, history: seq<Submission>, sub: Submission, row: Row)
    requires Ledger(s, history) && Warming(s, history) && FreshRow(s, sub, row)
    requires !NeedsBoundary(s)
    ensures Warming(Enter(s, sub, row).state, history + [sub])
  {
    var s' := Enter(s, sub, row).state;
    WarmupCounter(history, sub, s.warmed, s.ids);
    RunsKept(history, sub, s.cfg.warmupSteps);
    assert !EligibleRun(history, |history|, s.cfg.warmupSteps);
    assert s'.records == s.records + [row];
  }

  lemma OpenedKept(cfg: Config, history: seq<Submission>, open: int, sub: Submission)
    requires OpenedAt(cfg, history, open) && sub.eligible && sub.ids == history[|history| - 1].ids
    ensures OpenedAt(cfg, history + [sub], open)
  {
    LongestKept(history, sub, open, cfg.warmupSteps);
    RunsKept(history, sub, cfg.warmupSteps);
    RunGrows(history, sub, cfg.warmupSteps + |history| - open);
  }

  lemma MeasuredKept(rows: seq<Row>, open: int, row: Row)
    requires 0 <= open <= |rows| && MeasuredFrom(rows, open) && row.measured
    requires open < |rows| ==> row.contexts == Bump(rows[|rows| - 1].contexts)
    ensures MeasuredFrom(rows + [row], open)
  {
  }

  lemma EnterMeasuring(s: State, history: seq<Submission>, sub: Submission, row: Row)
    requires Measuring(s, history) && FreshRow(s, sub, row)
    requires s.result == None && !NeedsBoundary(s) && Enter(s, sub, row).reply.Returned?
    ensures Measuring(Enter(s, sub, row).state, history + [sub])
  {
    OpenedKept(s.cfg, history, |history| - s.steps, sub);
    MeasuredKept(s.records, |history| - s.steps, row);
    assert (s.steps + 1) * s.cfg.concurrency == s.steps * s.cfg.concurrency + s.cfg.concurrency;
  }

  lemma SubmitFreshRow(s: State, b: Batch)
    requires |b.contexts| == |b.requestIds|
    ensures FreshRow(s, Seen(s.cfg, b), NewRow(s.submitted, b, s.started != None))
  {
    SortedPairsAlign(b);
  }

  lemma SubmitExplained(s: State, history: seq<Submission>, b: Batch)
    requires Explained(s, history) && SubmitStep(s, b).reply.Returned?
    ensures Explained(SubmitStep(s, b).state, Extend(s.cfg, history, Submit(b), SubmitStep(s, b).reply))
  {
    if s.result == None {
      SubmitFreshRow(s, b);
      EnterExplained(s, history, Seen(s.cfg, b), NewRow(s.submitted, b, s.started != None));
    }
  }

  lemma EnterExplained(s: State, history: seq<Submission>, sub: Submission, row: Row)
    requires Explained(s, history) && FreshRow(s, sub, row)
    requires s.result == None && !NeedsBoundary(s) && Enter(s, sub, row).reply.Returned?
    ensures Explained(Enter(s, sub, row).state, history + [sub])
  {
    EnterLedger(s, history, sub, row);
    if Warming(s, history) {
      EnterWarming(s, history, sub, row);
    } else {
      EnterMeasuring(s, history, sub, row);
    }
  }

  /** The measured rows are the last ones when measuredness starts at a position and never stops. */
  lemma {:induction false} MeasuredSuffix(rows: seq<Row>, open: int)
    requires 0 <= open <= |rows|
    requires forall i :: 0 <= i < |rows| ==> (rows[i].measured <==> open <= i)
    ensures Measured(rows) == rows[open..]
  {
    if rows != [] {
      var front := rows[..|rows| - 1];
      if open < |rows| {
        MeasuredSuffix(front, open);
        assert rows[open..] == front[open..] + [rows[|rows| - 1]];
      } else {
        MeasuredSuffix(front, |front|);
      }
    }
  }

  /** At a drained closing edge, exactly `targetSteps` rows are measured and all of them are complete. */
  lemma ClosingEdge(s: State, history: seq<Submission>)
    requires Explained(s, history) && Measuring(s, history)
    requires s.steps == s.cfg.targetSteps && s.pending == {}
    ensures Measured(s.records) == s.records[|s.records| - s.steps..]
    ensures forall i :: 0 <= i < |Measured(s.records)| ==> Measured(s.records)[i].completed
  {
    MeasuredSuffix(s.records, |history| - s.steps);
  }

  lemma OpeningExplained(s: State, history: seq<Submission>, now: real, graph: GraphStats)
    requires Explained(s, history) && NeedsBoundary(s) && Warming(s, history)
    ensures Explained(s.(syncs := s.syncs + 1, graphBefore := Some(graph), started := Some(now)), history)
  {
    var s' := s.(syncs := s.syncs + 1, graphBefore := Some(graph), started := Some(now));
    assert Measuring(s', history);
  }

  /** The record made at a drained closing edge. */
  lemma ClosingRecord(s: State, history: seq<Submission>, now: real, graph: GraphStats)
    requires Explained(s, history) && Measuring(s, history) && NeedsBoundary(s) && s.pending == {}
    requires BaseResult(s, now, graph).Ok?
    ensures var selected := Measured(s.records); |selected| == s.steps && selected != []
    ensures var r := WithContexts(BaseResult(s, now, graph).value, Measured(s.records));
            Closed(s, r)
  {
    ClosingEdge(s, history);
    assert s.steps * s.cfg.concurrency > 0;
    var r := WithContexts(BaseResult(s, now, graph).value, Measured(s.records));
    assert GraphDelta(s.graphBefore.value, graph, s.steps) == Ok(r.graphDelta);
  }

  lemma ClosedAfter(s: State, r: WindowResult)
    requires Closed(s, r)
    ensures Closed(s.(syncs := s.syncs + 1, result := Some(r)), r)
  {
  }

  lemma ClosingExplained(s: State, history: seq<Submission>, r: WindowResult)
    requires Explained(s, history) && s.result == None && Closed(s, r) && Measuring(s, history)
    ensures Explained(s.(syncs := s.syncs + 1, result := Some(r)), history)
  {
    var s' := s.(syncs := s.syncs + 1, result := Some(r));
    ClosedAfter(s, r);
    assert Measuring(s', history);
  }

  lemma BoundaryExplained(s: State, history: seq<Submission>, now: real, graph: GraphStats)
    requires Explained(s, history) && WellFormed(s)
    requires BoundaryStep(s, now, graph).reply.Returned?
    ensures Explained(BoundaryStep(s, now, graph).state, history)
  {
    if NeedsBoundary(s) {
      if Warming(s, history) {
        OpeningExplained(s, history, now, graph);
      } else {
        ClosingRecord(s, history, now, graph);
        ClosingExplained(s, history, WithContexts(BaseResult(s, now, graph).value, Measured(s.records)));
      }
    }
  }

  /** Whatever call is made, if it returns, the state is still explained by the submitted batches. */
  lemma StepExplained(s: State, history: seq<Submission>, e: Event)
    requires Explained(s, history) && WellFormed(s)
    requires Step(s, e).reply.Returned?
    ensures Explained(Step(s, e).state, Extend(s.cfg, history, e, Step(s, e).reply))
  {
    match e
    case Boundary(now, graph) => BoundaryExplained(s, history, now, graph);
    case Submit(b) => SubmitExplained(s, history, b);
    case Complete(t, n) => CompleteExplained(s, history, t, n);
  }

  lemma StepConfig(s: State, e: Event)
    requires WellFormed(s)
    ensures Step(s, e).state.cfg == s.cfg
  {
  }

  ghost predicate Good(cfg: Config, t: Trace) {
    t.state.cfg == cfg && Explained(t.state, t.history)
  }

  lemma NextGood(cfg: Config, t: Trace, e: Event)
    requires ValidConfig(cfg) && WellFormed(t.state) && Good(cfg, t) && Next(cfg, t, e).Some?
    ensures Good(cfg, Next(cfg, t, e).value)
  {
    StepExplained(t.state, t.history, e);
    StepConfig(t.state, e);
  }

  lemma {:induction false} RunExplained(cfg: Config, events: seq<Event>)
    requires ValidConfig(cfg) && Run(cfg, events).Some?
    ensures Good(cfg, Run(cfg, events).value)
  {
    if events == [] {
      InitExplained(cfg);
    } else {
      RunExplained(cfg, events[..|events| - 1]);
      NextGood(cfg, Run(cfg, events[..|events| - 1]).value, events[|events| - 1]);
    }
  }
}
