/** What one call can do to a driver that keeps the protocol: which errors remain, what is in flight after. */
module DecodeWindowCalls {
  import opened Wrappers
  import opened DecodeWindow
  import opened DecodeWindowHistory
  import opened DecodeWindowTheorems
  import opened DecodeWindowEdges

  function TicketSet(ticket: Option<nat>): set<nat> { if ticket.Some? then {ticket.value} else {} }

  /** The run `events` raised nothing and left the window in state `s`. */
  ghost predicate Tracks(cfg: Config, events: seq<Event>, s: State) {
    && ValidConfig(cfg)
    && forall key :: Unfold(key) ==> Run(cfg, events).Some? && Run(cfg, events).value.state == s
  }

  lemma TracksRun(cfg: Config, events: seq<Event>, s: State)
    ensures Tracks(cfg, events, s) <==>
            ValidConfig(cfg) && Run(cfg, events).Some? && Run(cfg, events).value.state == s
  {
    assert Unfold(0);
  }

  lemma TracksExplained(cfg: Config, events: seq<Event>, s: State)
    requires Tracks(cfg, events, s)
    ensures Run(cfg, events).Some? && Run(cfg, events).value.state == s
    ensures Explained(s, Run(cfg, events).value.history) && WellFormed(s) && s.cfg == cfg
  {
    TracksRun(cfg, events, s);
    RunExplained(cfg, events);
  }

  lemma TracksWellFormed(cfg: Config, events: seq<Event>, s: State)
    requires Tracks(cfg, events, s)
    ensures WellFormed(s) && s.cfg == cfg
  {
    TracksExplained(cfg, events, s);
  }

  lemma TracksNext(cfg: Config, events: seq<Event>, s: State, e: Event)
    requires Tracks(cfg, events, s) && WellFormed(s) && Step(s, e).reply.Returned?
    ensures Tracks(cfg, events + [e], Step(s, e).state)
  {
    TracksRun(cfg, events, s);
    assert (events + [e])[..|events|] == events;
    TracksRun(cfg, events + [e], Step(s, e).state);
  }

  /** A boundary with nothing in flight fails on the readings only, and leaves no edge behind. */
  lemma DrainedBoundary(cfg: Config, events: seq<Event>, s: State, now: real, graph: GraphStats)
    requires Tracks(cfg, events, s) && s.pending == {}
    ensures WellFormed(s)
    ensures var r := BoundaryStep(s, now, graph);
            match r.reply
            case Raised(e) => e in {LostRanks, GraphContract, InvalidStageTime}
            case Returned(_) => !NeedsBoundary(r.state) && r.state.pending == {}
                                && Tracks(cfg, events + [Boundary(now, graph)], r.state)
  {
    TracksExplained(cfg, events, s);
    var history := Run(cfg, events).value.history;
    IncompleteWorkUnreachable(s, history, now, graph);
    if BoundaryStep(s, now, graph).reply.Returned? {
      TracksNext(cfg, events, s, Boundary(now, graph));
    } else {
      GraphDeltaErrors(s.graphBefore.value, graph, s.steps);
    }
  }

  lemma SubmitFacts(s: State, b: Batch)
    requires WellFormed(s) && !NeedsBoundary(s)
    ensures var r := SubmitStep(s, b);
            match r.reply
            case Raised(e) => e in {Preemption, MissingContexts, Contaminated, ContextJump}
            case Returned(None) => r.state == s && s.result.Some?
            case Returned(Some(t)) => t !in s.pending && r.state.pending == s.pending + {t}
                                      && t < |r.state.records| && r.state.records[t].pureDecode == b.isDecode
                                      && r.state.records[t].tokens == b.tokens
  {
  }

  /** Away from an edge a submission fails on the batch only; its ticket is the one thing added in flight. */
  lemma CheckedSubmit(cfg: Config, events: seq<Event>, s: State, b: Batch)
    requires Tracks(cfg, events, s) && !NeedsBoundary(s)
    ensures WellFormed(s)
    ensures var r := SubmitStep(s, b);
            match r.reply
            case Raised(e) => e in {Preemption, MissingContexts, Contaminated, ContextJump}
            case Returned(None) => r.state == s && s.result.Some? && Tracks(cfg, events + [Submit(b)], r.state)
            case Returned(Some(t)) => t !in s.pending && r.state.pending == s.pending + {t}
                                      && t < |r.state.records| && r.state.records[t].pureDecode == b.isDecode
                                      && r.state.records[t].tokens == b.tokens
                                      && Tracks(cfg, events + [Submit(b)], r.state)
  {
    TracksWellFormed(cfg, events, s);
    SubmitFacts(s, b);
    if SubmitStep(s, b).reply.Returned? {
      TracksNext(cfg, events, s, Submit(b));
    }
  }

  /** A window that has not opened has measured nothing and is at most warm. */
  lemma Unopened(cfg: Config, events: seq<Event>, s: State)
    requires Tracks(cfg, events, s) && s.started == None
    ensures WellFormed(s) && s.cfg == cfg && s.result == None && s.steps == 0 && s.lastContexts == None
    ensures 0 <= s.warmed <= cfg.warmupSteps
  {
    TracksExplained(cfg, events, s);
    assert Warming(s, Run(cfg, events).value.history);
  }

  /** A ticket in flight, or no ticket, fails on a token mismatch only. */
  lemma KnownComplete(cfg: Config, events: seq<Event>, s: State, ticket: Option<nat>, n: Option<int>)
    requires Tracks(cfg, events, s) && (ticket.Some? ==> ticket.value in s.pending)
    ensures WellFormed(s)
    ensures var r := CompleteStep(s, ticket, n);
            match r.reply
            case Raised(e) => e == TokenMismatch
            case Returned(_) => r.state.pending == s.pending - TicketSet(ticket)
                                && r.state.result == s.result && NeedsBoundary(r.state) == NeedsBoundary(s)
                                && Tracks(cfg, events + [Complete(ticket, n)], r.state)
  {
    TracksExplained(cfg, events, s);
    if CompleteStep(s, ticket, n).reply.Returned? {
      TracksNext(cfg, events, s, Complete(ticket, n));
    }
  }

  /** A submission completed with the count it was submitted with does not raise. */
  lemma RightCount(cfg: Config, events: seq<Event>, s: State, b: Batch, n: Option<int>)
    requires Tracks(cfg, events, s) && !NeedsBoundary(s) && SubmitStep(s, b).reply.Returned?
    requires b.isDecode ==> n == Some(b.tokens)
    ensures WellFormed(SubmitStep(s, b).state)
    ensures CompleteStep(SubmitStep(s, b).state, SubmitStep(s, b).reply.ticket, n).reply.Returned?
  {
    CheckedSubmit(cfg, events, s, b);
    TracksWellFormed(cfg, events + [Submit(b)], SubmitStep(s, b).state);
  }

  /** A tracked state with a result is a finished measurement. */
  lemma TracksResult(cfg: Config, events: seq<Event>, s: State)
    requires Tracks(cfg, events, s) && s.result.Some?
    ensures Finished(cfg, events, s.result.value) && s.pending == {} && s.syncs == 2
  {
    TracksExplained(cfg, events, s);
    ResultFinished(cfg, events);
  }

  lemma TracksInit(cfg: Config)
    requires ValidConfig(cfg)
    ensures Tracks(cfg, [], Init(cfg))
  {
    TracksRun(cfg, [], Init(cfg));
  }
}
