/**
 Exactly which scripts the serial loop measures: the conditions on the submitted batches and the readings under which
 it returns a result, in terms of the script alone.
 */
module SerialExact {
  import opened Wrappers
  import opened Arithmetic
  import opened DecodeWindow
  import opened DecodeWindowHistory
  import opened DecodeWindowTheorems
  import opened DecodeWindowCalls
  import opened DecodeWindowStretch
  import opened SerialDriver

  /** The batches of the script as the window sees them. */
  ghost function Hist(cfg: Config, script: seq<Feed>): (h: seq<Submission>)
    ensures |h| == |script| && forall i :: 0 <= i < |script| ==> h[i] == Seen(cfg, script[i].batch)
  {
    seq(|script|, i requires 0 <= i < |script| => Seen(cfg, script[i].batch))
  }

  /** The `warmupSteps` batches before position `p` are eligible and share one request set. */
  ghost predicate Warm(cfg: Config, script: seq<Feed>, p: nat) { EligibleRun(Hist(cfg, script), p, cfg.warmupSteps) }

  /** The first warm position up to `k`: the window opens there. */
  ghost function FirstWarm(cfg: Config, script: seq<Feed>, k: nat): (o: Option<nat>)
    ensures o.Some? ==> o.value <= k && Warm(cfg, script, o.value) && forall p :: 0 <= p < o.value ==> !Warm(cfg, script, p)
    ensures o == None ==> forall p :: 0 <= p <= k ==> !Warm(cfg, script, p)
  {
    if k > 0 && FirstWarm(cfg, script, k - 1).Some? then FirstWarm(cfg, script, k - 1)
    else if Warm(cfg, script, k) then Some(k)
    else None
  }

  /** The position of the opening boundary among the first `k` iterations. */
  ghost function Opened(cfg: Config, script: seq<Feed>, k: nat): Option<nat> {
    if k == 0 then None else FirstWarm(cfg, script, k - 1)
  }

  /** A batch the window accepts whatever its phase, and whose tokens are all published. */
  ghost predicate ValidStep(step: Feed) {
    var b := step.batch;
    && b.preemptions == 0 && |b.contexts| == |b.requestIds| && (forall i :: 0 <= i < |b.contexts| ==> b.contexts[i] >= 0)
    && (b.isDecode ==> step.published == b.tokens)
  }

  /** Step `i` continues the eligible run that opened the window at `o`, one token further. */
  ghost predicate Continues(cfg: Config, script: seq<Feed>, o: nat, i: nat)
    requires o <= i < |script|
  {
    && EligibleRun(Hist(cfg, script), i + 1, cfg.warmupSteps + i + 1 - o)
    && (i > o ==> Contexts(script[i].batch) == Bump(Contexts(script[i - 1].batch)))
  }

  /** Readings that close a window of `steps` steps: later, and one replay per step on every rank. */
  ghost predicate Closes(opening: Feed, now: real, graph: GraphStats, steps: int) {
    opening.now < now && GraphDelta(opening.graph, graph, steps).Ok?
  }

  /** What the loop asks of step `i`. */
  ghost predicate StepFine(cfg: Config, script: seq<Feed>, i: nat)
    requires i < |script|
  {
    && !script[i].halted
    && match FirstWarm(cfg, script, i)
       case None => ValidStep(script[i])
       case Some(o) =>
         if i < o + cfg.targetSteps then ValidStep(script[i]) && Continues(cfg, script, o, i)
         else if i == o + cfg.targetSteps then Closes(script[o], script[i].now, script[i].graph, cfg.targetSteps)
         else true
  }

  /** Where the window stands after `k` iterations, and the batches it was given. */
  ghost predicate Stands(cfg: Config, script: seq<Feed>, k: nat, s: State, history: seq<Submission>)
    requires k <= |script|
  {
    && (s.result == None ==> history == Hist(cfg, script)[..k])
    && match Opened(cfg, script, k)
       case None => s.started == None && s.result == None
       case Some(o) =>
         if k <= o + cfg.targetSteps then Measures(cfg, script, k, s, o)
         else ReportedAt(cfg, script, o, o + cfg.targetSteps, s, history)
  }

  /** The result of the `targetSteps` steps from `o`, read at `opening` and then. */
  ghost predicate Reported(cfg: Config, opening: Feed, now: real, graph: GraphStats, s: State) {
    && s.result.Some? && s.started == Some(opening.now) && s.result.value.finished == now
    && GraphDelta(opening.graph, graph, cfg.targetSteps) == Ok(s.result.value.graphDelta)
  }

  /** That result, read before step `end`, and the steps it stands for. */
  ghost predicate ReportedAt(cfg: Config, script: seq<Feed>, o: nat, end: int, s: State, history: seq<Submission>)
    requires o < |script|
  {
    0 <= end < |script| && Reported(cfg, script[o], script[end].now, script[end].graph, s) && history == Hist(cfg, script)[..end]
  }

  ghost predicate Measures(cfg: Config, script: seq<Feed>, k: nat, s: State, o: nat)
    requires o < k <= |script|
  {
    && s.result == None && s.started == Some(script[o].now) && s.graphBefore == Some(script[o].graph) && s.steps == k - o
    && s.lastContexts == Some(Contexts(script[k - 1].batch))
  }

  // ----- one call at a time

  lemma RunNext(cfg: Config, events: seq<Event>, e: Event)
    requires ValidConfig(cfg) && Run(cfg, events).Some?
    ensures Run(cfg, events + [e]) == Next(cfg, Run(cfg, events).value, e)
  {
    assert (events + [e])[..|events|] == events;
  }

  lemma PrefixRun(h: seq<Submission>, k: nat, p: nat, w: int)
    requires p <= k <= |h|
    ensures EligibleRun(h[..k], p, w) <==> EligibleRun(h, p, w)
  {
    assert forall i :: 0 <= i < k ==> h[..k][i] == h[i];
  }

  /** What a step needs of a window that is not at an edge and has no result. */
  ghost predicate Accepted(s: State, step: Feed) {
    && ValidStep(step)
    && (s.started.Some? ==> Eligible(s.cfg, step.batch) && Some(SortedIds(step.batch.requestIds)) == s.ids)
    && !Jumps(s.started, s.lastContexts, Contexts(step.batch))
  }

  lemma SubmitExact(s: State, step: Feed)
    requires WellFormed(s) && !NeedsBoundary(s) && s.result == None
    ensures var b := step.batch;
            SubmitStep(s, b).reply.Returned? <==>
            && b.preemptions == 0 && |b.contexts| == |b.requestIds| && (forall i :: 0 <= i < |b.contexts| ==> b.contexts[i] >= 0)
            && (s.started.Some? ==> Eligible(s.cfg, b) && Some(SortedIds(step.batch.requestIds)) == s.ids)
            && !Jumps(s.started, s.lastContexts, Contexts(b))
    ensures SubmitStep(s, step.batch).reply.Returned? ==>
              var t := SubmitStep(s, step.batch).state;
              && SubmitStep(s, step.batch).reply.ticket.Some?
              && t.result == None && t.started == s.started && t.graphBefore == s.graphBefore
              && (s.started.Some? ==> t.steps == s.steps + 1 && t.lastContexts == Some(Contexts(step.batch)))
  {
  }

  /** A completion changes neither the readings nor the counts; it is refused only for a wrong count. */
  lemma CompleteExact(cfg: Config, events: seq<Event>, s: State, step: Feed)
    requires Tracks(cfg, events, s) && s.pending == {} && !NeedsBoundary(s) && s.result == None
    requires SubmitStep(s, step.batch).reply.Returned?
    ensures WellFormed(SubmitStep(s, step.batch).state)
    ensures var sent := SubmitStep(s, step.batch);
            var done := CompleteStep(sent.state, sent.reply.ticket, Actual(step));
            && (done.reply.Returned? <==> (step.batch.isDecode ==> step.published == step.batch.tokens))
            && done.state.result == sent.state.result && done.state.started == sent.state.started
            && done.state.graphBefore == sent.state.graphBefore && done.state.steps == sent.state.steps
            && done.state.lastContexts == sent.state.lastContexts
  {
    TracksWellFormed(cfg, events, s);
    CheckedSubmit(cfg, events, s, step.batch);
    TracksWellFormed(cfg, events + [Submit(step.batch)], SubmitStep(s, step.batch).state);
    SubmitExact(s, step);
  }

  lemma ForwardExact(cfg: Config, events: seq<Event>, s: State, step: Feed)
    requires Tracks(cfg, events, s) && s.pending == {} && !NeedsBoundary(s) && s.result == None
    ensures WellFormed(s) && (Forward(s, step).Ok? <==> Accepted(s, step))
    ensures Forward(s, step).Ok? ==>
              var t := Forward(s, step).value;
              && t.result == None && t.started == s.started && t.graphBefore == s.graphBefore
              && (s.started.Some? ==> t.steps == s.steps + 1 && t.lastContexts == Some(Contexts(step.batch)))
  {
    TracksWellFormed(cfg, events, s);
    SubmitExact(s, step);
    if SubmitStep(s, step.batch).reply.Returned? {
      CompleteExact(cfg, events, s, step);
    }
  }

  /** With a result nothing is asked and nothing changes. */
  lemma ForwardDone(cfg: Config, events: seq<Event>, s: State, step: Feed)
    requires Tracks(cfg, events, s) && s.result.Some?
    ensures WellFormed(s) && Forward(s, step) == Ok(s)
  {
    TracksWellFormed(cfg, events, s);
  }

  // ----- the boundary of a step

  /** The window between the boundary and the submission of step `k`. */
  ghost predicate AtStep(cfg: Config, script: seq<Feed>, k: nat, s: State, history: seq<Submission>)
    requires k < |script|
  {
    match FirstWarm(cfg, script, k)
    case None => s.started == None && s.result == None
    case Some(o) =>
      if k < o + cfg.targetSteps then
        && s.result == None && s.started == Some(script[o].now) && s.graphBefore == Some(script[o].graph) && s.steps == k - o
        && s.lastContexts == if k == o then None else Some(Contexts(script[k - 1].batch))
      else ReportedAt(cfg, script, o, o + cfg.targetSteps, s, history)
  }

  ghost predicate EdgeFine(cfg: Config, script: seq<Feed>, k: nat)
    requires k < |script|
  {
    match FirstWarm(cfg, script, k)
    case None => true
    case Some(o) => k == o + cfg.targetSteps ==> Closes(script[o], script[k].now, script[k].graph, cfg.targetSteps)
  }

  ghost function HistoryOf(cfg: Config, events: seq<Event>): seq<Submission>
    requires ValidConfig(cfg)
  {
    if Run(cfg, events).Some? then Run(cfg, events).value.history else []
  }

  /** Before the opening edge the window is at the edge exactly when the history ends warm. */
  lemma WarmAtEdge(cfg: Config, events: seq<Event>, s: State, script: seq<Feed>, k: nat)
    requires Tracks(cfg, events, s) && s.started == None && k <= |script| && HistoryOf(cfg, events) == Hist(cfg, script)[..k]
    ensures s.result == None && s.steps == 0 && s.lastContexts == None && WellFormed(s) && s.cfg == cfg
    ensures NeedsBoundary(s) <==> Warm(cfg, script, k)
  {
    var history := HistoryOf(cfg, events);
    Unopened(cfg, events, s);
    TracksExplained(cfg, events, s);
    assert Warming(s, history) && |history| == k;
    PrefixRun(Hist(cfg, script), k, k, cfg.warmupSteps);
    assert EligibleRun(history, k, cfg.warmupSteps) <==> s.warmed == cfg.warmupSteps;
  }

  lemma EdgeUnopened(cfg: Config, events: seq<Event>, s: State, script: seq<Feed>, k: nat)
    requires Tracks(cfg, events, s) && s.pending == {} && k < |script|
    requires Stands(cfg, script, k, s, HistoryOf(cfg, events)) && Opened(cfg, script, k) == None
    ensures WellFormed(s)
    ensures var r := BoundaryStep(s, script[k].now, script[k].graph);
            r.reply.Returned? && EdgeFine(cfg, script, k) && AtStep(cfg, script, k, r.state, HistoryOf(cfg, events))
  {
    WarmAtEdge(cfg, events, s, script, k);
  }

  /** The closing edge is accepted exactly on closing readings. */
  lemma EdgeCloses(cfg: Config, events: seq<Event>, s: State, opening: Feed, now: real, graph: GraphStats)
    requires Tracks(cfg, events, s) && s.pending == {} && s.result == None && s.steps == cfg.targetSteps
    requires s.started == Some(opening.now) && s.graphBefore == Some(opening.graph)
    ensures WellFormed(s)
    ensures var r := BoundaryStep(s, now, graph);
            && (r.reply.Returned? <==> Closes(opening, now, graph, cfg.targetSteps))
            && (r.reply.Returned? ==> Reported(cfg, opening, now, graph, r.state))
  {
    TracksExplained(cfg, events, s);
    var history := Run(cfg, events).value.history;
    IncompleteWorkUnreachable(s, history, now, graph);
    assert Measuring(s, history);
    Product(s.steps, s.cfg.concurrency);
  }

  lemma EdgeOpened(cfg: Config, events: seq<Event>, s: State, script: seq<Feed>, k: nat)
    requires Tracks(cfg, events, s) && s.pending == {} && k < |script|
    requires Stands(cfg, script, k, s, HistoryOf(cfg, events)) && Opened(cfg, script, k).Some?
    ensures WellFormed(s)
    ensures var r := BoundaryStep(s, script[k].now, script[k].graph);
            && (r.reply.Returned? <==> EdgeFine(cfg, script, k))
            && (r.reply.Returned? ==> AtStep(cfg, script, k, r.state, HistoryOf(cfg, events)))
  {
    TracksWellFormed(cfg, events, s);
    var o := Opened(cfg, script, k).value;
    if k == o + cfg.targetSteps {
      assert FirstWarm(cfg, script, k) == Some(o);
      EdgeCloses(cfg, events, s, script[o], script[k].now, script[k].graph);
    } else {
      EdgeStays(cfg, events, s, script, k);
    }
  }

  lemma NoEdge(s: State, now: real, graph: GraphStats)
    requires WellFormed(s) && !NeedsBoundary(s)
    ensures BoundaryStep(s, now, graph) == Stepped(s, Returned(None))
  {
  }

  /** Within the measurement, and after its result, a boundary changes nothing. */
  lemma EdgeStays(cfg: Config, events: seq<Event>, s: State, script: seq<Feed>, k: nat)
    requires Tracks(cfg, events, s) && WellFormed(s) && s.cfg == cfg && k < |script|
    requires Stands(cfg, script, k, s, HistoryOf(cfg, events)) && Opened(cfg, script, k).Some?
    requires k != Opened(cfg, script, k).value + cfg.targetSteps
    ensures BoundaryStep(s, script[k].now, script[k].graph) == Stepped(s, Returned(None))
    ensures EdgeFine(cfg, script, k) && AtStep(cfg, script, k, s, HistoryOf(cfg, events))
  {
    assert FirstWarm(cfg, script, k) == Opened(cfg, script, k);
    var o := Opened(cfg, script, k).value;
    if k < o + cfg.targetSteps {
      assert Measures(cfg, script, k, s, o);
    } else {
      assert ReportedAt(cfg, script, o, o + cfg.targetSteps, s, HistoryOf(cfg, events));
    }
    assert !NeedsBoundary(s);
    NoEdge(s, script[k].now, script[k].graph);
  }

  lemma EdgeExact(cfg: Config, events: seq<Event>, s: State, script: seq<Feed>, k: nat)
    requires Tracks(cfg, events, s) && s.pending == {} && k < |script| && Stands(cfg, script, k, s, HistoryOf(cfg, events))
    ensures WellFormed(s)
    ensures var r := BoundaryStep(s, script[k].now, script[k].graph);
            && (r.reply.Returned? <==> EdgeFine(cfg, script, k))
            && (r.reply.Returned? ==> AtStep(cfg, script, k, r.state, HistoryOf(cfg, events)))
  {
    if Opened(cfg, script, k) == None {
      EdgeUnopened(cfg, events, s, script, k);
    } else {
      EdgeOpened(cfg, events, s, script, k);
    }
  }

  // ----- the step itself

  /** The run that opened the window goes on with step `k` exactly if its batch is eligible for the same requests. */
  lemma RunGoesOn(h: seq<Submission>, k: nat, w: int)
    requires k < |h| && w >= 1 && EligibleRun(h, k, w)
    ensures EligibleRun(h, k + 1, w + 1) <==> h[k].eligible && h[k].ids == h[k - 1].ids
  {
    if EligibleRun(h, k + 1, w + 1) {
      assert h[k - 1].ids == h[k].ids;
    }
  }

  lemma MeasuringAt(cfg: Config, events: seq<Event>, s: State, script: seq<Feed>, k: nat, o: nat)
    requires Tracks(cfg, events, s) && s.started.Some? && s.result == None && k < |script| && o <= k && s.steps == k - o
    requires HistoryOf(cfg, events) == Hist(cfg, script)[..k]
    ensures 1 <= cfg.warmupSteps <= o && s.cfg == cfg && s.ids == Some(Hist(cfg, script)[k - 1].ids)
    ensures EligibleRun(Hist(cfg, script), k, cfg.warmupSteps + k - o)
  {
    TracksExplained(cfg, events, s);
    var history := HistoryOf(cfg, events);
    assert Measuring(s, history) && |history| == k;
    PrefixRun(Hist(cfg, script), k, k, cfg.warmupSteps + k - o);
  }

  lemma AcceptedExact(cfg: Config, events: seq<Event>, s: State, script: seq<Feed>, k: nat)
    requires Tracks(cfg, events, s) && k < |script| && AtStep(cfg, script, k, s, HistoryOf(cfg, events)) && s.result == None
    requires HistoryOf(cfg, events) == Hist(cfg, script)[..k]
    ensures Accepted(s, script[k]) <==>
            ValidStep(script[k])
            && (FirstWarm(cfg, script, k).Some? ==> Continues(cfg, script, FirstWarm(cfg, script, k).value, k))
  {
    if FirstWarm(cfg, script, k).Some? {
      var o := FirstWarm(cfg, script, k).value;
      MeasuringAt(cfg, events, s, script, k, o);
      RunGoesOn(Hist(cfg, script), k, cfg.warmupSteps + k - o);
    }
  }

  /** One more iteration: the batch enters the history while there is no result. */
  lemma CallsHistory(cfg: Config, events: seq<Event>, s: State, step: Feed)
    requires Tracks(cfg, events, s) && s.pending == {} && WellFormed(s) && Drive(s, step).Ok?
    ensures var edge := BoundaryStep(s, step.now, step.graph).state;
            HistoryOf(cfg, events + Calls(s, step)) ==
            HistoryOf(cfg, events) + (if edge.result == None then [Seen(cfg, step.batch)] else [])
  {
    TracksRun(cfg, events, s);
    var calls := Calls(s, step);
    DriveTracked(cfg, events, s, step);
    TracksRun(cfg, events + calls, Drive(s, step).value);
    RunNext(cfg, events, calls[0]);
    RunNext(cfg, events + [calls[0]], calls[1]);
    RunNext(cfg, events + [calls[0]] + [calls[1]], calls[2]);
    assert events + [calls[0]] + [calls[1]] + [calls[2]] == events + calls;
    TicketExactly(BoundaryStep(s, step.now, step.graph).state, step.batch);
  }

  lemma TicketExactly(s: State, b: Batch)
    requires WellFormed(s) && SubmitStep(s, b).reply.Returned?
    ensures SubmitStep(s, b).reply.ticket.Some? <==> s.result == None
  {
  }

  lemma BoundaryHistory(cfg: Config, events: seq<Event>, s: State, now: real, graph: GraphStats)
    requires Tracks(cfg, events, s) && WellFormed(s) && BoundaryStep(s, now, graph).reply.Returned?
    ensures HistoryOf(cfg, events + [Boundary(now, graph)]) == HistoryOf(cfg, events)
  {
    TracksRun(cfg, events, s);
    RunNext(cfg, events, Boundary(now, graph));
  }

  lemma HistNext(cfg: Config, script: seq<Feed>, k: nat)
    requires k < |script|
    ensures Hist(cfg, script)[..k + 1] == Hist(cfg, script)[..k] + [Seen(cfg, script[k].batch)]
  {
  }

  // ----- one iteration

  /** With no result yet the step is accepted exactly when it is fine, and leaves the window where it should stand. */
  lemma StepBeforeResult(cfg: Config, events: seq<Event>, s: State, script: seq<Feed>, k: nat)
    requires Tracks(cfg, events, s) && s.pending == {} && !NeedsBoundary(s) && s.result == None && k < |script|
    requires AtStep(cfg, script, k, s, HistoryOf(cfg, events)) && HistoryOf(cfg, events) == Hist(cfg, script)[..k]
    ensures WellFormed(s)
    ensures Forward(s, script[k]).Ok? <==>
            ValidStep(script[k])
            && (FirstWarm(cfg, script, k).Some? ==> Continues(cfg, script, FirstWarm(cfg, script, k).value, k))
    ensures Forward(s, script[k]).Ok? ==> Stands(cfg, script, k + 1, Forward(s, script[k]).value, Hist(cfg, script)[..k + 1])
  {
    ForwardExact(cfg, events, s, script[k]);
    AcceptedExact(cfg, events, s, script, k);
  }

  lemma StepAfterResult(cfg: Config, events: seq<Event>, s: State, script: seq<Feed>, k: nat, history: seq<Submission>)
    requires Tracks(cfg, events, s) && s.result.Some? && k < |script| && AtStep(cfg, script, k, s, history)
    ensures WellFormed(s) && Forward(s, script[k]) == Ok(s) && Stands(cfg, script, k + 1, s, history)
  {
    ForwardDone(cfg, events, s, script[k]);
  }

  /** An iteration raises nothing exactly when its step is fine. */
  lemma DriveExact(cfg: Config, events: seq<Event>, s: State, script: seq<Feed>, k: nat)
    requires Tracks(cfg, events, s) && s.pending == {} && k < |script| && Stands(cfg, script, k, s, HistoryOf(cfg, events))
    ensures WellFormed(s) && (Drive(s, script[k]).Ok? <==> StepFine(cfg, script, k))
    ensures Drive(s, script[k]).Ok? ==>
              Stands(cfg, script, k + 1, Drive(s, script[k]).value,
                     HistoryOf(cfg, events + Calls(s, script[k])))
  {
    var step := script[k];
    EdgeExact(cfg, events, s, script, k);
    DrainedBoundary(cfg, events, s, step.now, step.graph);
    var edge := BoundaryStep(s, step.now, step.graph);
    if edge.reply.Returned? {
      var after := events + [Boundary(step.now, step.graph)];
      BoundaryHistory(cfg, events, s, step.now, step.graph);
      if edge.state.result == None {
        ResultKept(s, step.now, step.graph);
        HistNext(cfg, script, k);
        StepBeforeResult(cfg, after, edge.state, script, k);
      } else {
        StepAfterResult(cfg, after, edge.state, script, k, HistoryOf(cfg, events));
      }
      if Drive(s, step).Ok? {
        CallsHistory(cfg, events, s, step);
      }
    }
  }

  lemma ResultKept(s: State, now: real, graph: GraphStats)
    requires WellFormed(s) && BoundaryStep(s, now, graph).reply.Returned? && BoundaryStep(s, now, graph).state.result == None
    ensures s.result == None
  {
  }

  // ----- the whole loop

  ghost predicate AllFine(cfg: Config, script: seq<Feed>, k: nat)
    requires k <= |script|
  {
    forall i :: 0 <= i < k ==> StepFine(cfg, script, i)
  }

  ghost function EventsOf(cfg: Config, script: seq<Feed>): seq<Event>
    requires ValidConfig(cfg)
  {
    if DriveAll(Init(cfg), script).Ok? then LoopCalls(Init(cfg), script) else []
  }

  lemma CallsSnoc(cfg: Config, script: seq<Feed>, k: nat)
    requires ValidConfig(cfg) && k < |script| && DriveAll(Init(cfg), script[..k]).Ok?
    requires Drive(DriveAll(Init(cfg), script[..k]).value, script[k]).Ok?
    ensures EventsOf(cfg, script[..k + 1]) ==
            EventsOf(cfg, script[..k])
            + Calls(DriveAll(Init(cfg), script[..k]).value, script[k])
  {
    assert script[..k + 1][..k] == script[..k];
  }

  lemma StartStands(cfg: Config, script: seq<Feed>)
    requires ValidConfig(cfg)
    ensures Stands(cfg, script, 0, Init(cfg), HistoryOf(cfg, []))
  {
  }

  /** After `k` iterations nothing raised exactly when the steps so far are fine, and then the window stands where it should. */
  ghost predicate ExactAt(cfg: Config, script: seq<Feed>, k: nat)
    requires ValidConfig(cfg) && k <= |script|
  {
    var r := DriveAll(Init(cfg), script[..k]);
    && (r.Ok? <==> AllFine(cfg, script, k))
    && (r.Ok? ==> Stands(cfg, script, k, r.value, HistoryOf(cfg, EventsOf(cfg, script[..k]))))
  }

  lemma AllFineNext(cfg: Config, script: seq<Feed>, k: nat)
    requires k < |script|
    ensures AllFine(cfg, script, k + 1) <==>
            AllFine(cfg, script, k) && StepFine(cfg, script, k)
  {
  }

  /** The next iteration, from a state that stands where it should. */
  lemma ExactNext(cfg: Config, script: seq<Feed>, k: nat, s: State)
    requires ValidConfig(cfg) && k < |script| && DriveAll(Init(cfg), script[..k]) == Ok(s)
    requires Stands(cfg, script, k, s, HistoryOf(cfg, EventsOf(cfg, script[..k])))
    ensures WellFormed(s)
    ensures var r := DriveAll(Init(cfg), script[..k + 1]);
            && (r.Ok? <==> StepFine(cfg, script, k))
            && (r.Ok? ==> Stands(cfg, script, k + 1, r.value, HistoryOf(cfg, EventsOf(cfg, script[..k + 1]))))
  {
    DriveSnoc(Init(cfg), script, k);
    LoopTracked(cfg, script[..k]);
    DriveExact(cfg, EventsOf(cfg, script[..k]), s, script, k);
    if Drive(s, script[k]).Ok? {
      CallsSnoc(cfg, script, k);
    }
  }

  lemma LoopNext(cfg: Config, script: seq<Feed>, k: nat)
    requires ValidConfig(cfg) && k < |script| && ExactAt(cfg, script, k)
    ensures ExactAt(cfg, script, k + 1)
  {
    AllFineNext(cfg, script, k);
    DriveSnoc(Init(cfg), script, k);
    var r := DriveAll(Init(cfg), script[..k]);
    if r.Ok? {
      ExactNext(cfg, script, k, r.value);
    }
  }

  lemma {:induction false} LoopExact(cfg: Config, script: seq<Feed>, k: nat)
    requires ValidConfig(cfg) && k <= |script|
    ensures ExactAt(cfg, script, k)
  {
    if k == 0 {
      StartStands(cfg, script);
    } else {
      LoopExact(cfg, script, k - 1);
      LoopNext(cfg, script, k - 1);
    }
  }

  /** The window has opened early enough, and closes on the last readings if it has not closed before. */
  ghost predicate Finishes(cfg: Config, script: seq<Feed>, now: real, graph: GraphStats) {
    match Opened(cfg, script, |script|)
    case None => false
    case Some(o) =>
      && o + cfg.targetSteps <= |script|
      && (o + cfg.targetSteps == |script| ==> Closes(script[o], now, graph, cfg.targetSteps))
  }

  lemma MeasurementExact(cfg: Config, events: seq<Event>, s: State, script: seq<Feed>, now: real, graph: GraphStats)
    requires Tracks(cfg, events, s) && s.pending == {} && Stands(cfg, script, |script|, s, HistoryOf(cfg, events))
    ensures WellFormed(s) && (Measurement(s, now, graph).Ok? <==> Finishes(cfg, script, now, graph))
  {
    TracksWellFormed(cfg, events, s);
    match Opened(cfg, script, |script|)
    case None => WarmAtEdge(cfg, events, s, script, |script|);
    case Some(o) =>
      if |script| == o + cfg.targetSteps {
        EdgeCloses(cfg, events, s, script[o], now, graph);
      }
  }

  ghost function NowAt(script: seq<Feed>, i: nat, now: real): real { if i < |script| then script[i].now else now }

  ghost function GraphAt(script: seq<Feed>, i: nat, graph: GraphStats): GraphStats {
    if i < |script| then script[i].graph else graph
  }

  /** The result the loop ends with was read where the measurement's steps end. */
  ghost predicate EndsAt(cfg: Config, script: seq<Feed>, o: nat, now: real, graph: GraphStats, s: State,
                         history: seq<Submission>)
    requires o < |script|
  {
    var end := o + cfg.targetSteps;
    && o < end <= |script| && history == Hist(cfg, script)[..end]
    && Reported(cfg, script[o], NowAt(script, end, now), GraphAt(script, end, graph), s)
  }

  lemma MeasurementReads(cfg: Config, events: seq<Event>, s: State, script: seq<Feed>, now: real, graph: GraphStats)
    requires Tracks(cfg, events, s) && s.pending == {} && Stands(cfg, script, |script|, s, HistoryOf(cfg, events))
    ensures WellFormed(s)
    ensures Measurement(s, now, graph).Ok? ==>
              var o, edge := Opened(cfg, script, |script|), BoundaryStep(s, now, graph);
              o.Some? && edge.reply.Returned? && edge.state.result == Some(Measurement(s, now, graph).value)
              && EndsAt(cfg, script, o.value, now, graph, edge.state, HistoryOf(cfg, events + [Boundary(now, graph)]))
  {
    TracksWellFormed(cfg, events, s);
    MeasurementExact(cfg, events, s, script, now, graph);
    if Measurement(s, now, graph).Ok? {
      var o := Opened(cfg, script, |script|).value;
      BoundaryHistory(cfg, events, s, now, graph);
      if |script| == o + cfg.targetSteps {
        EdgeCloses(cfg, events, s, script[o], now, graph);
      }
    }
  }

  lemma TaskFine(cfg: Config, script: seq<Feed>, now: real, graph: GraphStats)
    requires ValidConfig(cfg)
    ensures Task(cfg, script, now, graph).Ok? <==>
            AllFine(cfg, script, |script|) && Finishes(cfg, script, now, graph)
  {
    assert script[..|script|] == script;
    LoopExact(cfg, script, |script|);
    var r := DriveAll(Init(cfg), script);
    if r.Ok? {
      LoopTracked(cfg, script);
      MeasurementExact(cfg, EventsOf(cfg, script), r.value, script, now, graph);
    }
  }

  // ----- the conditions put together

  ghost predicate FirstAt(cfg: Config, script: seq<Feed>, o: nat) {
    Warm(cfg, script, o) && forall p :: 0 <= p < o ==> !Warm(cfg, script, p)
  }

  /** Every step up to `end` is valid, and from `o` on contexts advance by one token. */
  ghost predicate GoesOn(script: seq<Feed>, o: nat, end: nat)
    requires end <= |script|
  {
    && (forall i :: 0 <= i < end ==> ValidStep(script[i]))
    && (forall i :: o < i < end ==> Contexts(script[i].batch) == Bump(Contexts(script[i - 1].batch)))
  }

  /**
   The window opens at `o`, the first warm position; up to the end of the measurement every step is valid, the run of
   eligible steps of one request set goes on, contexts advance by one token; and the readings `targetSteps` later close.
   */
  ghost predicate MeasuredAt(cfg: Config, script: seq<Feed>, o: nat, now: real, graph: GraphStats) {
    var end := o + cfg.targetSteps;
    && o < end <= |script|
    && FirstAt(cfg, script, o)
    && GoesOn(script, o, end)
    && EligibleRun(Hist(cfg, script), end, cfg.warmupSteps + cfg.targetSteps)
    && Closes(script[o], NowAt(script, end, now), GraphAt(script, end, graph), cfg.targetSteps)
  }

  /** The driver stops at no step. */
  ghost predicate Unhalted(script: seq<Feed>) {
    forall i :: 0 <= i < |script| ==> !script[i].halted
  }

  lemma WarmIsFirst(cfg: Config, script: seq<Feed>, o: nat, k: nat)
    requires FirstAt(cfg, script, o)
    ensures FirstWarm(cfg, script, k) == if o <= k then Some(o) else None
  {
  }

  lemma RunShorter(h: seq<Submission>, end: nat, w: int, less: nat)
    requires EligibleRun(h, end, w) && less < w
    ensures EligibleRun(h, end - less, w - less)
  {
  }

  lemma MeasuredStep(cfg: Config, script: seq<Feed>, o: nat, now: real, graph: GraphStats, i: nat)
    requires ValidConfig(cfg) && MeasuredAt(cfg, script, o, now, graph) && Unhalted(script) && i < |script|
    ensures StepFine(cfg, script, i)
  {
    var end := o + cfg.targetSteps;
    WarmIsFirst(cfg, script, o, i);
    if o <= i < end {
      RunShorter(Hist(cfg, script), end, cfg.warmupSteps + cfg.targetSteps, end - (i + 1));
    }
  }

  lemma MeasuredFine(cfg: Config, script: seq<Feed>, o: nat, now: real, graph: GraphStats)
    requires ValidConfig(cfg) && MeasuredAt(cfg, script, o, now, graph) && Unhalted(script)
    ensures AllFine(cfg, script, |script|) && Finishes(cfg, script, now, graph)
  {
    forall i | 0 <= i < |script| ensures StepFine(cfg, script, i) {
      MeasuredStep(cfg, script, o, now, graph, i);
    }
    WarmIsFirst(cfg, script, o, |script| - 1);
  }

  /** What a fine step of a script that opens at `o` says. */
  lemma FineAt(cfg: Config, script: seq<Feed>, o: nat, i: nat)
    requires ValidConfig(cfg) && i < |script| && StepFine(cfg, script, i) && FirstAt(cfg, script, o)
    ensures !script[i].halted
    ensures i < o + cfg.targetSteps ==> ValidStep(script[i])
    ensures o <= i < o + cfg.targetSteps ==> Continues(cfg, script, o, i)
    ensures i == o + cfg.targetSteps ==> Closes(script[o], script[i].now, script[i].graph, cfg.targetSteps)
  {
    WarmIsFirst(cfg, script, o, i);
  }

  lemma FineUnhalted(cfg: Config, script: seq<Feed>)
    requires AllFine(cfg, script, |script|)
    ensures Unhalted(script)
  {
    forall i | 0 <= i < |script| ensures !script[i].halted {
      assert StepFine(cfg, script, i);
    }
  }

  lemma FineGoesOn(cfg: Config, script: seq<Feed>, o: nat, end: nat)
    requires ValidConfig(cfg) && AllFine(cfg, script, |script|) && FirstAt(cfg, script, o)
    requires end == o + cfg.targetSteps <= |script|
    ensures GoesOn(script, o, end)
  {
    forall i | 0 <= i < end ensures ValidStep(script[i]) {
      FineAt(cfg, script, o, i);
    }
    forall i | o < i < end ensures Contexts(script[i].batch) == Bump(Contexts(script[i - 1].batch)) {
      FineAt(cfg, script, o, i);
    }
  }

  lemma FineRun(cfg: Config, script: seq<Feed>, o: nat, end: nat)
    requires ValidConfig(cfg) && AllFine(cfg, script, |script|) && FirstAt(cfg, script, o)
    requires end == o + cfg.targetSteps <= |script|
    ensures EligibleRun(Hist(cfg, script), end, cfg.warmupSteps + cfg.targetSteps)
  {
    FineAt(cfg, script, o, end - 1);
  }

  lemma FineClose(cfg: Config, script: seq<Feed>, o: nat, end: nat, now: real, graph: GraphStats)
    requires ValidConfig(cfg) && AllFine(cfg, script, |script|) && FirstAt(cfg, script, o)
    requires end == o + cfg.targetSteps <= |script| && (end == |script| ==> Closes(script[o], now, graph, cfg.targetSteps))
    ensures Closes(script[o], NowAt(script, end, now), GraphAt(script, end, graph), cfg.targetSteps)
  {
    if end < |script| {
      FineAt(cfg, script, o, end);
    }
  }

  /** Where a script that finishes opens. */
  lemma FinishesOpened(cfg: Config, script: seq<Feed>, now: real, graph: GraphStats) returns (o: nat)
    requires ValidConfig(cfg) && Finishes(cfg, script, now, graph)
    ensures FirstAt(cfg, script, o) && o < o + cfg.targetSteps <= |script|
    ensures o + cfg.targetSteps == |script| ==> Closes(script[o], now, graph, cfg.targetSteps)
  {
    o := Opened(cfg, script, |script|).value;
  }

  lemma FineMeasured(cfg: Config, script: seq<Feed>, o: nat, now: real, graph: GraphStats)
    requires ValidConfig(cfg) && AllFine(cfg, script, |script|)
    requires FirstAt(cfg, script, o) && o < o + cfg.targetSteps <= |script|
    requires o + cfg.targetSteps == |script| ==> Closes(script[o], now, graph, cfg.targetSteps)
    ensures MeasuredAt(cfg, script, o, now, graph)
  {
    var end := o + cfg.targetSteps;
    FineGoesOn(cfg, script, o, end);
    FineRun(cfg, script, o, end);
    FineClose(cfg, script, o, end, now, graph);
  }

  /** A script is measured exactly when it has such a measurement and keeps the batch where it must. */
  lemma TaskMeasured(cfg: Config, script: seq<Feed>, now: real, graph: GraphStats)
    requires ValidConfig(cfg)
    ensures Task(cfg, script, now, graph).Ok? <==>
            (exists o :: MeasuredAt(cfg, script, o, now, graph)) && Unhalted(script)
  {
    TaskFine(cfg, script, now, graph);
    if AllFine(cfg, script, |script|) && Finishes(cfg, script, now, graph) {
      var o := FinishesOpened(cfg, script, now, graph);
      FineMeasured(cfg, script, o, now, graph);
      FineUnhalted(cfg, script);
    } else if o :| MeasuredAt(cfg, script, o, now, graph) {
      if Unhalted(script) {
        MeasuredFine(cfg, script, o, now, graph);
      }
    }
  }
}
