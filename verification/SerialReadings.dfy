/**
 Which scripts a serial loop measures, and what it reports, request by request and step by step.
 */
module SerialReadings {
  import opened Wrappers
  import opened DecodeWindow
  import opened RequestOrder
  import opened DecodeWindowHistory
  import opened DecodeWindowTheorems
  import opened DecodeWindowEdges
  import opened DecodeWindowReadings
  import opened DecodeWindowCalls
  import opened DecodeWindowStretch
  import opened SerialDriver
  import opened SerialExact

  /** The `warmupSteps` steps before `p` are full decode steps of the same requests. */
  ghost predicate Ready(cfg: Config, script: seq<Feed>, p: nat) {
    && cfg.warmupSteps <= p <= |script|
    && forall i :: p - cfg.warmupSteps <= i < p ==>
         FullBatch(cfg, script[i].batch) && multiset(script[i].batch.requestIds) == multiset(script[p - 1].batch.requestIds)
  }

  ghost predicate FirstReady(cfg: Config, script: seq<Feed>, o: nat) {
    Ready(cfg, script, o) && forall p :: 0 <= p < o ==> !Ready(cfg, script, p)
  }

  /** No request was preempted, every request has a context length, and a decode step published all its tokens. */
  ghost predicate Clear(step: Feed) {
    var b := step.batch;
    && b.preemptions == 0 && |b.contexts| == |b.requestIds| && (forall i :: 0 <= i < |b.contexts| ==> b.contexts[i] >= 0)
    && (b.isDecode ==> step.published == b.tokens)
  }

  /** Nothing goes wrong up to `end`, and from `o` on the requests of the warmup decode, each a token further with every step. */
  ghost predicate KeepsDecoding(cfg: Config, script: seq<Feed>, o: nat, end: nat)
    requires 1 <= o < end <= |script|
  {
    && multiset(script[o].batch.requestIds) == multiset(script[o - 1].batch.requestIds)
    && (forall i :: 0 <= i < end ==> Clear(script[i]))
    && (forall i :: o <= i < end ==>
          FullBatch(cfg, script[i].batch) && multiset(script[i].batch.requestIds) == multiset(script[o].batch.requestIds))
    && (forall i :: o < i < end ==>
          Ahead(script[i].batch.requestIds, script[i].batch.contexts,
                script[i - 1].batch.requestIds, script[i - 1].batch.contexts, 1))
  }

  /**
   Steps `o` to `o + targetSteps` are the script's measurement: `o` is the first position with a full warmup behind it, the
   same requests decode on from there, nothing goes wrong up to the end, and the readings there are later, all on the graph.
   */
  ghost predicate Measurable(cfg: Config, script: seq<Feed>, o: nat, now: real, graph: GraphStats) {
    var end := o + cfg.targetSteps;
    && 1 <= o < end <= |script|
    && FirstReady(cfg, script, o) && KeepsDecoding(cfg, script, o, end)
    && script[o].now < NowAt(script, end, now) && Replays(script[o].graph, GraphAt(script, end, graph), cfg.targetSteps)
  }

  lemma HistSeen(cfg: Config, script: seq<Feed>)
    ensures AllSeen(cfg, Hist(cfg, script))
  {
  }

  lemma ReadyIsWarm(cfg: Config, script: seq<Feed>, p: nat)
    requires ValidConfig(cfg)
    ensures Ready(cfg, script, p) <==> Warm(cfg, script, p)
  {
    HistSeen(cfg, script);
    RunIsFull(cfg, Hist(cfg, script), p, cfg.warmupSteps);
  }

  lemma ReadyFirst(cfg: Config, script: seq<Feed>, o: nat)
    requires ValidConfig(cfg)
    ensures FirstAt(cfg, script, o) <==> FirstReady(cfg, script, o)
  {
    forall p | 0 <= p <= o ensures Ready(cfg, script, p) <==> Warm(cfg, script, p) {
      ReadyIsWarm(cfg, script, p);
    }
  }

  lemma ClosesReplays(opening: Feed, now: real, graph: GraphStats, steps: int)
    ensures Closes(opening, now, graph, steps) <==> opening.now < now && Replays(opening.graph, graph, steps)
  {
    GraphDeltaExact(opening.graph, graph, steps);
  }

  /** Behind a warm position, the run goes on to `end` exactly when all steps to there are full and of the same requests. */
  lemma RunReaches(cfg: Config, script: seq<Feed>, o: nat, end: nat)
    requires ValidConfig(cfg) && o < end <= |script| && Ready(cfg, script, o)
    ensures EligibleRun(Hist(cfg, script), end, cfg.warmupSteps + end - o) <==>
            multiset(script[o].batch.requestIds) == multiset(script[o - 1].batch.requestIds)
            && forall i :: o <= i < end ==>
                 FullBatch(cfg, script[i].batch) && multiset(script[i].batch.requestIds) == multiset(script[o].batch.requestIds)
  {
    var count := cfg.warmupSteps + end - o;
    HistSeen(cfg, script);
    RunIsFull(cfg, Hist(cfg, script), end, count);
    if FullRun(cfg, Hist(cfg, script), end, count) {
      assert multiset(script[o].batch.requestIds) == multiset(script[end - 1].batch.requestIds)
                                                  == multiset(script[o - 1].batch.requestIds);
    }
  }

  /** One batch's contexts, sorted by request, are a token further exactly if each request's are. */
  lemma BumpedBatch(a: Batch, b: Batch)
    requires |a.contexts| == |a.requestIds| && |b.contexts| == |b.requestIds|
    requires NoRepeat(a.requestIds) && NoRepeat(b.requestIds) && multiset(a.requestIds) == multiset(b.requestIds)
    ensures Contexts(a) == Bump(Contexts(b)) <==> Ahead(a.requestIds, a.contexts, b.requestIds, b.contexts, 1)
  {
    BumpedAhead(a, b);
  }

  lemma ClearIsValid(step: Feed)
    ensures Clear(step) <==> ValidStep(step)
  {
  }

  lemma GoesOnClear(script: seq<Feed>, end: nat)
    requires end <= |script|
    ensures (forall i :: 0 <= i < end ==> Clear(script[i])) <==> (forall i :: 0 <= i < end ==> ValidStep(script[i]))
  {
    forall i | 0 <= i < end ensures Clear(script[i]) <==> ValidStep(script[i]) {
      ClearIsValid(script[i]);
    }
  }

  /** Along full steps of the same requests, the contexts advance in the window's order exactly if each request's do. */
  lemma ContextsGoOn(cfg: Config, script: seq<Feed>, o: nat, end: nat)
    requires o < end <= |script| && forall i :: 0 <= i < end ==> Clear(script[i])
    requires forall i :: o <= i < end ==>
               FullBatch(cfg, script[i].batch) && multiset(script[i].batch.requestIds) == multiset(script[o].batch.requestIds)
    ensures (forall i :: o < i < end ==> Contexts(script[i].batch) == Bump(Contexts(script[i - 1].batch))) <==>
            (forall i :: o < i < end ==>
               Ahead(script[i].batch.requestIds, script[i].batch.contexts,
                     script[i - 1].batch.requestIds, script[i - 1].batch.contexts, 1))
  {
    forall i | o < i < end
      ensures Contexts(script[i].batch) == Bump(Contexts(script[i - 1].batch)) <==>
              Ahead(script[i].batch.requestIds, script[i].batch.contexts,
                    script[i - 1].batch.requestIds, script[i - 1].batch.contexts, 1)
    {
      BumpedBatch(script[i].batch, script[i - 1].batch);
    }
  }

  /** What happens from a warm position to `end`, in the window's terms and in the engine's. */
  lemma WorkKeeps(cfg: Config, script: seq<Feed>, o: nat, end: nat)
    requires ValidConfig(cfg) && 1 <= o < end == o + cfg.targetSteps <= |script| && Ready(cfg, script, o)
    requires GoesOn(script, o, end) && EligibleRun(Hist(cfg, script), end, cfg.warmupSteps + cfg.targetSteps)
    ensures KeepsDecoding(cfg, script, o, end)
  {
    RunReaches(cfg, script, o, end);
    GoesOnClear(script, end);
    ContextsGoOn(cfg, script, o, end);
  }

  lemma KeepsWork(cfg: Config, script: seq<Feed>, o: nat, end: nat)
    requires ValidConfig(cfg) && 1 <= o < end == o + cfg.targetSteps <= |script| && Ready(cfg, script, o)
    requires KeepsDecoding(cfg, script, o, end)
    ensures GoesOn(script, o, end) && EligibleRun(Hist(cfg, script), end, cfg.warmupSteps + cfg.targetSteps)
  {
    RunReaches(cfg, script, o, end);
    GoesOnClear(script, end);
    ContextsGoOn(cfg, script, o, end);
  }

  lemma MeasuredIsMeasurable(cfg: Config, script: seq<Feed>, o: nat, now: real, graph: GraphStats)
    requires ValidConfig(cfg) && MeasuredAt(cfg, script, o, now, graph)
    ensures Measurable(cfg, script, o, now, graph)
  {
    var end := o + cfg.targetSteps;
    ReadyFirst(cfg, script, o);
    WorkKeeps(cfg, script, o, end);
    ClosesReplays(script[o], NowAt(script, end, now), GraphAt(script, end, graph), cfg.targetSteps);
  }

  lemma MeasurableIsMeasured(cfg: Config, script: seq<Feed>, o: nat, now: real, graph: GraphStats)
    requires ValidConfig(cfg) && Measurable(cfg, script, o, now, graph)
    ensures MeasuredAt(cfg, script, o, now, graph)
  {
    var end := o + cfg.targetSteps;
    ReadyFirst(cfg, script, o);
    KeepsWork(cfg, script, o, end);
    ClosesReplays(script[o], NowAt(script, end, now), GraphAt(script, end, graph), cfg.targetSteps);
  }

  /**
   The loop returns a result if and only if the script has a measurement and the driver stops at no step.
   */
  lemma TaskExact(cfg: Config, script: seq<Feed>, now: real, graph: GraphStats)
    requires ValidConfig(cfg)
    ensures Task(cfg, script, now, graph).Ok? <==>
            (exists o :: Measurable(cfg, script, o, now, graph))
            && forall i :: 0 <= i < |script| ==> !script[i].halted
  {
    TaskMeasured(cfg, script, now, graph);
    if o :| MeasuredAt(cfg, script, o, now, graph) {
      MeasuredIsMeasurable(cfg, script, o, now, graph);
    }
    if o :| Measurable(cfg, script, o, now, graph) {
      MeasurableIsMeasured(cfg, script, o, now, graph);
    }
  }

  // ----- what is reported

  /** Every reading of the delta is one replay per step. */
  ghost predicate OnlyReplays(delta: GraphStats, before: GraphStats, steps: int) {
    && (before.Single? ==> delta == Single(Counters(0, steps, 0)))
    && (before.Ranks? ==> delta.Ranks? && |delta.ranks| == |before.ranks|
                          && forall i :: 0 <= i < |delta.ranks| ==> delta.ranks[i] == Counters(0, steps, 0))
  }

  /** The readings before the first measured step and at the end, and the work between them. */
  ghost predicate ReportsReadings(cfg: Config, start: real, before: GraphStats, finish: real, r: WindowResult) {
    && start < finish && r.started == start && r.finished == finish && r.elapsed == finish - start
    && r.decodeTokens == cfg.concurrency * cfg.targetSteps && r.decodeSteps == cfg.targetSteps
    && r.throughput == Some((cfg.concurrency * cfg.targetSteps) as real / (finish - start))
    && OnlyReplays(r.graphDelta, before, cfg.targetSteps)
  }

  lemma HistoryReports(cfg: Config, script: seq<Feed>, o: nat, t: Trace, r: WindowResult)
    requires ValidConfig(cfg) && o + cfg.targetSteps <= |script| && t.history == Hist(cfg, script)[..o + cfg.targetSteps]
    requires WindowRows(cfg, t, r) && ContextsAdvance(cfg, r) && StartContexts(cfg, t, r)
    ensures ReportsRequests(cfg, r, script[o].batch.requestIds, script[o].batch.contexts)
  {
    ResultReads(cfg, t, r);
    assert t.history[o].batch == script[o].batch;
  }

  lemma ReadingsReported(cfg: Config, first: Feed, finish: real, graph: GraphStats, s: State)
    requires Reported(cfg, first, finish, graph, s) && s.started == Some(s.result.value.started)
    requires Scalars(cfg, s, s.result.value)
    ensures ReportsReadings(cfg, first.now, first.graph, finish, s.result.value)
  {
    GraphDeltaExact(first.graph, graph, cfg.targetSteps);
  }

  lemma EndReports(cfg: Config, script: seq<Feed>, o: nat, now: real, graph: GraphStats, events: seq<Event>, s: State)
    requires Tracks(cfg, events, s) && o < |script| && EndsAt(cfg, script, o, now, graph, s, HistoryOf(cfg, events))
    ensures ReportsRequests(cfg, s.result.value, script[o].batch.requestIds, script[o].batch.contexts)
    ensures ReportsReadings(cfg, script[o].now, script[o].graph, NowAt(script, o + cfg.targetSteps, now), s.result.value)
  {
    TracksRun(cfg, events, s);
    TracksResult(cfg, events, s);
    TracksStarted(cfg, events, s);
    HistoryReports(cfg, script, o, Run(cfg, events).value, s.result.value);
    ReadingsReported(cfg, script[o], NowAt(script, o + cfg.targetSteps, now), GraphAt(script, o + cfg.targetSteps, graph), s);
  }

  lemma TracksStarted(cfg: Config, events: seq<Event>, s: State)
    requires Tracks(cfg, events, s) && s.result.Some?
    ensures s.started == Some(s.result.value.started)
  {
    TracksExplained(cfg, events, s);
  }

  /** A result of the loop is the report of the script's measurement. */
  lemma TaskReports(cfg: Config, script: seq<Feed>, now: real, graph: GraphStats) returns (o: nat)
    requires ValidConfig(cfg) && Task(cfg, script, now, graph).Ok?
    ensures Measurable(cfg, script, o, now, graph)
    ensures var r := Task(cfg, script, now, graph).value;
            ReportsRequests(cfg, r, script[o].batch.requestIds, script[o].batch.contexts)
            && ReportsReadings(cfg, script[o].now, script[o].graph, NowAt(script, o + cfg.targetSteps, now), r)
  {
    var events, s := EventsOf(cfg, script), DriveAll(Init(cfg), script).value;
    assert script[..|script|] == script;
    LoopExact(cfg, script, |script|);
    LoopTracked(cfg, script);
    MeasurementReads(cfg, events, s, script, now, graph);
    DrainedBoundary(cfg, events, s, now, graph);
    o := Opened(cfg, script, |script|).value;
    EndReports(cfg, script, o, now, graph, events + [Boundary(now, graph)], BoundaryStep(s, now, graph).state);
    TaskFine(cfg, script, now, graph);
    FineMeasured(cfg, script, o, now, graph);
    MeasuredIsMeasurable(cfg, script, o, now, graph);
  }
}
