/**
 The window along a clean stretch: full decode steps of one request set, each one token and one graph replay
 after the one before. Whatever drives the window, it warms up on the stretch, measures it and closes.
 */
module DecodeWindowStretch {
  import opened Wrappers
  import opened Arithmetic
  import opened DecodeWindow
  import opened DecodeWindowHistory
  import opened DecodeWindowTheorems
  import opened DecodeWindowCalls

  /** A step as the window meets it: the readings at the boundary before it, and its batch. */
  datatype Tick = Tick(now: real, graph: GraphStats, batch: Batch)

  /** The context lengths in request order. */
  ghost function Contexts(b: Batch): seq<int> {
    if |b.contexts| == |b.requestIds| then Seconds(SortedPairs(b)) else []
  }

  /** A full, undisturbed decode step of the requests `ids`. */
  ghost predicate CleanBatch(cfg: Config, ids: seq<int>, b: Batch) {
    && Eligible(cfg, b) && SortedIds(b.requestIds) == ids
    && |b.contexts| == |b.requestIds| && (forall i :: 0 <= i < |b.contexts| ==> b.contexts[i] >= 0)
    && b.preemptions == 0
  }

  /** Between two readings every rank replays the captured graph `n` times and does nothing else. */
  ghost predicate Replays(before: GraphStats, after: GraphStats, n: int) {
    match before
    case Single(b) => after.Single? && Replayed(b, after.rank, n)
    case Ranks(bs) => after.Ranks? && |bs| == |after.ranks| >= 1
                      && forall i :: 0 <= i < |bs| ==> Replayed(bs[i], after.ranks[i], n)
  }

  ghost predicate Follows(earlier: Tick, now: real, graph: GraphStats) {
    earlier.now < now && Replays(earlier.graph, graph, 1)
  }

  ghost predicate Clean(cfg: Config, ids: seq<int>, ticks: seq<Tick>) {
    && (forall i :: 0 <= i < |ticks| ==> CleanBatch(cfg, ids, ticks[i].batch))
    && (forall i :: 0 < i < |ticks| ==>
          Contexts(ticks[i].batch) == Bump(Contexts(ticks[i - 1].batch))
          && Follows(ticks[i - 1], ticks[i].now, ticks[i].graph))
  }

  // ----- the readings of a clean stretch

  lemma ReplayNext(a: GraphStats, b: GraphStats, c: GraphStats, n: int)
    requires Replays(a, b, n) && Replays(b, c, 1)
    ensures Replays(a, c, n + 1)
  {
    if a.Ranks? {
      forall i | 0 <= i < |a.ranks| ensures Replayed(a.ranks[i], c.ranks[i], n + 1) {
        assert Replayed(a.ranks[i], b.ranks[i], n) && Replayed(b.ranks[i], c.ranks[i], 1);
      }
    }
  }

  lemma {:induction false} ReadingsAdvance(cfg: Config, ids: seq<int>, ticks: seq<Tick>, i: nat, j: nat)
    requires Clean(cfg, ids, ticks) && i < j < |ticks|
    ensures ticks[i].now < ticks[j].now && Replays(ticks[i].graph, ticks[j].graph, j - i)
    decreases j
  {
    assert Follows(ticks[j - 1], ticks[j].now, ticks[j].graph);
    if i < j - 1 {
      ReadingsAdvance(cfg, ids, ticks, i, j - 1);
      ReplayNext(ticks[i].graph, ticks[j - 1].graph, ticks[j].graph, j - 1 - i);
    }
  }

  // ----- the window along a clean stretch

  /** Before step `j` of the stretch the window warms up on it, measures it since step `j - steps`, or is done. */
  ghost predicate Along(s: State, ids: seq<int>, ticks: seq<Tick>, j: nat) {
    && j <= |ticks|
    && (s.result == None && s.started == None ==>
          && j <= s.warmed <= s.cfg.warmupSteps
          && (j > 0 || s.warmed == s.cfg.warmupSteps ==> s.ids == Some(ids)))
    && (s.result == None && s.started.Some? ==>
          var open := j - s.steps;
          && s.ids == Some(ids) && 0 <= open <= s.cfg.warmupSteps && 0 <= s.steps <= s.cfg.targetSteps
          && open < |ticks| && s.started == Some(ticks[open].now) && s.graphBefore == Some(ticks[open].graph)
          && (s.steps > 0 ==> s.lastContexts == Some(Contexts(ticks[j - 1].batch)))
          && (s.steps == 0 ==> s.lastContexts == None))
  }

  /** Before the opening edge: the next boundary opens the window, for requests other than these. */
  ghost predicate WarmForOthers(s: State, ids: seq<int>) { s.warmed == s.cfg.warmupSteps && s.ids != Some(ids) }

  lemma AlongStart(cfg: Config, events: seq<Event>, s: State, ids: seq<int>, ticks: seq<Tick>)
    requires Tracks(cfg, events, s) && s.started == None && !WarmForOthers(s, ids)
    ensures Along(s, ids, ticks, 0)
  {
    Unopened(cfg, events, s);
  }

  /** A closing edge at a later time, every rank having replayed each step, is accepted. */
  lemma ClosingAccepted(cfg: Config, events: seq<Event>, s: State, now: real, graph: GraphStats)
    requires Tracks(cfg, events, s) && s.pending == {}
    requires s.result == None && s.started.Some? && s.graphBefore.Some? && s.steps == s.cfg.targetSteps
    requires s.started.value < now && Replays(s.graphBefore.value, graph, s.steps)
    ensures WellFormed(s)
    ensures BoundaryStep(s, now, graph).reply.Returned? && BoundaryStep(s, now, graph).state.result.Some?
  {
    TracksExplained(cfg, events, s);
    var history := Run(cfg, events).value.history;
    GraphDeltaExact(s.graphBefore.value, graph, s.steps);
    IncompleteWorkUnreachable(s, history, now, graph);
    assert Measuring(s, history);
    Product(s.steps, s.cfg.concurrency);
  }

  lemma OpeningAlong(cfg: Config, events: seq<Event>, s: State, ids: seq<int>, ticks: seq<Tick>, j: nat)
    requires Tracks(cfg, events, s) && s.pending == {}
    requires Along(s, ids, ticks, j) && j < |ticks| && NeedsBoundary(s) && s.started == None
    ensures WellFormed(s)
    ensures var r := BoundaryStep(s, ticks[j].now, ticks[j].graph); r.reply.Returned? && Along(r.state, ids, ticks, j)
  {
    Unopened(cfg, events, s);
  }

  lemma ClosingAlong(cfg: Config, events: seq<Event>, s: State, ids: seq<int>, ticks: seq<Tick>, j: nat)
    requires Tracks(cfg, events, s) && s.pending == {} && Clean(cfg, ids, ticks)
    requires Along(s, ids, ticks, j) && j < |ticks| && NeedsBoundary(s) && s.started.Some?
    ensures WellFormed(s)
    ensures var r := BoundaryStep(s, ticks[j].now, ticks[j].graph); r.reply.Returned? && Along(r.state, ids, ticks, j)
  {
    TracksWellFormed(cfg, events, s);
    ReadingsAdvance(cfg, ids, ticks, j - s.steps, j);
    ClosingAccepted(cfg, events, s, ticks[j].now, ticks[j].graph);
  }

  /** The boundary before a step, with nothing in flight at an edge. */
  lemma EdgeAlong(cfg: Config, events: seq<Event>, s: State, ids: seq<int>, ticks: seq<Tick>, j: nat)
    requires Tracks(cfg, events, s) && (NeedsBoundary(s) ==> s.pending == {}) && Clean(cfg, ids, ticks)
    requires Along(s, ids, ticks, j) && j < |ticks|
    ensures WellFormed(s)
    ensures var r := BoundaryStep(s, ticks[j].now, ticks[j].graph); r.reply.Returned? && Along(r.state, ids, ticks, j)
  {
    TracksWellFormed(cfg, events, s);
    if NeedsBoundary(s) {
      if s.started == None {
        OpeningAlong(cfg, events, s, ids, ticks, j);
      } else {
        ClosingAlong(cfg, events, s, ids, ticks, j);
      }
    }
  }

  /** The submission of a step. */
  lemma SubmitAlong(s: State, ids: seq<int>, ticks: seq<Tick>, j: nat)
    requires Along(s, ids, ticks, j) && j < |ticks| && Clean(s.cfg, ids, ticks) && !NeedsBoundary(s)
    ensures var r := SubmitStep(s, ticks[j].batch); r.reply.Returned? && Along(r.state, ids, ticks, j + 1)
  {
    assert CleanBatch(s.cfg, ids, ticks[j].batch);
    assert s.result == None && s.started.Some? && s.steps > 0 ==> s.lastContexts == Some(Contexts(ticks[j - 1].batch));
  }

  /** A completion changes nothing that matters to the stretch. */
  lemma CompleteAlong(s: State, ids: seq<int>, ticks: seq<Tick>, j: nat, ticket: Option<nat>, n: Option<int>)
    requires WellFormed(s) && Along(s, ids, ticks, j)
    ensures Along(CompleteStep(s, ticket, n).state, ids, ticks, j)
  {
  }

  /** After the whole stretch the window is closed by the next boundary, if it is not closed already. */
  lemma StretchCloses(cfg: Config, events: seq<Event>, s: State, ids: seq<int>, ticks: seq<Tick>, now: real, graph: GraphStats)
    requires Tracks(cfg, events, s) && (NeedsBoundary(s) ==> s.pending == {}) && Clean(cfg, ids, ticks)
    requires Along(s, ids, ticks, |ticks|) && |ticks| == cfg.warmupSteps + cfg.targetSteps
    requires Follows(ticks[|ticks| - 1], now, graph)
    ensures WellFormed(s)
    ensures BoundaryStep(s, now, graph).reply.Returned? && BoundaryStep(s, now, graph).state.result.Some?
  {
    TracksWellFormed(cfg, events, s);
    if s.result == None {
      assert s.started.Some?;
      var open, last := |ticks| - s.steps, |ticks| - 1;
      if open < last {
        ReadingsAdvance(cfg, ids, ticks, open, last);
        ReplayNext(ticks[open].graph, ticks[last].graph, graph, last - open);
      }
      ClosingAccepted(cfg, events, s, now, graph);
    }
  }

  /** A window already warm for other requests opens at the next boundary and meets turnover. */
  lemma WrongRequests(cfg: Config, events: seq<Event>, s: State, ids: seq<int>, now: real, graph: GraphStats, b: Batch)
    requires Tracks(cfg, events, s) && s.pending == {} && s.started == None
    requires WarmForOthers(s, ids) && CleanBatch(cfg, ids, b)
    ensures WellFormed(s)
    ensures BoundaryStep(s, now, graph).reply.Returned?
    ensures SubmitStep(BoundaryStep(s, now, graph).state, b).reply == Raised(Contaminated)
  {
    Unopened(cfg, events, s);
  }
}
