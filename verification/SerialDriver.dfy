/**
 A serial loop around the window: before each engine step a boundary, after it a submission and its completion. The
 loop is a function of what the steps feed to the window; here is what holds of every such list of steps.
 */
module SerialDriver {
  import opened Wrappers
  import opened DecodeWindow
  import opened DecodeWindowEdges
  import opened DecodeWindowCalls

  /**
   One step as the window meets it: the readings before it, its batch, the tokens it published, and whether the driver
   stops at it for a preemption.
   */
  datatype Feed = Feed(now: real, graph: GraphStats, batch: Batch, published: int, halted: bool)

  /** The tokens the engine published in a decode step; a prefill step completes without a count. */
  function Actual(step: Feed): Option<int> { if step.batch.isDecode then Some(step.published) else None }

  /** The state after a call that returned, or the error of one that raised. */
  function Outcome(r: Stepped): Result<State, Error> {
    if r.reply.Raised? then Err(r.reply.error) else Ok(r.state)
  }

  /** The window after a step's submission and its completion. */
  function Forward(s: State, step: Feed): (r: Result<State, Error>)
    requires WellFormed(s)
    ensures r.Ok? ==> WellFormed(r.value)
  {
    var sent := Step(s, Submit(step.batch));
    if sent.reply.Raised? then Err(sent.reply.error)
    else Outcome(Step(sent.state, Complete(sent.reply.ticket, Actual(step))))
  }

  /** The window after one iteration. */
  function Drive(s: State, step: Feed): (r: Result<State, Error>)
    requires WellFormed(s)
    ensures r.Ok? ==> WellFormed(r.value)
  {
    var edge := Step(s, Boundary(step.now, step.graph));
    if edge.reply.Raised? then Err(edge.reply.error)
    else if step.halted then Err(Preemption)
    else Forward(edge.state, step)
  }

  function DriveAll(s: State, script: seq<Feed>): (r: Result<State, Error>)
    requires WellFormed(s)
    ensures r.Ok? ==> WellFormed(r.value)
  {
    if script == [] then Ok(s)
    else
      match DriveAll(s, script[..|script| - 1])
      case Err(e) => Err(e)
      case Ok(t) => Drive(t, script[|script| - 1])
  }

  /** The boundary after the loop and require_result. */
  function Measurement(s: State, now: real, graph: GraphStats): Result<WindowResult, Error>
    requires WellFormed(s)
  {
    var edge := BoundaryStep(s, now, graph);
    if edge.reply.Raised? then Err(edge.reply.error)
    else if edge.state.result == None then Err(NoResult)
    else Ok(edge.state.result.value)
  }

  lemma {:induction false} DriveStops(s: State, script: seq<Feed>, n: nat)
    requires WellFormed(s) && n <= |script| && DriveAll(s, script[..n]).Err?
    ensures DriveAll(s, script) == DriveAll(s, script[..n])
  {
    if n < |script| {
      assert script[..|script| - 1][..n] == script[..n];
      DriveStops(s, script[..|script| - 1], n);
    } else {
      assert script[..n] == script;
    }
  }

  lemma DriveSnoc(s: State, script: seq<Feed>, n: nat)
    requires WellFormed(s) && n < |script|
    ensures var r := DriveAll(s, script[..n]);
            DriveAll(s, script[..n + 1]) == if r.Err? then r else Drive(r.value, script[n])
  {
    assert script[..n + 1][..n] == script[..n];
  }

  /** The whole loop: the iterations and the closing boundary, from a new window. */
  function Task(cfg: Config, script: seq<Feed>, lastNow: real, lastGraph: GraphStats):
    Result<WindowResult, Error>
    requires ValidConfig(cfg)
  {
    match DriveAll(Init(cfg), script)
    case Err(e) => Err(e)
    case Ok(s) => Measurement(s, lastNow, lastGraph)
  }

  // ----- every script

  /** The calls one iteration makes. */
  ghost function Calls(s: State, step: Feed): seq<Event>
    requires WellFormed(s) && Drive(s, step).Ok?
  {
    var edge := Step(s, Boundary(step.now, step.graph));
    var sent := Step(edge.state, Submit(step.batch));
    [Boundary(step.now, step.graph), Submit(step.batch), Complete(sent.reply.ticket, Actual(step))]
  }

  /** The calls of all iterations. */
  ghost function LoopCalls(s: State, script: seq<Feed>): seq<Event>
    requires WellFormed(s) && DriveAll(s, script).Ok?
  {
    if script == [] then []
    else
      var front := script[..|script| - 1];
      LoopCalls(s, front)
      + Calls(DriveAll(s, front).value, script[|script| - 1])
  }

  /** Errors of a broken measurement protocol. */
  predicate ProtocolError(e: Error) { e in {UndrainedBoundary, CrossedEdge, UnknownTicket, IncompleteWork} }

  lemma ForwardTracked(cfg: Config, events: seq<Event>, s: State, step: Feed)
    requires Tracks(cfg, events, s) && s.pending == {} && !NeedsBoundary(s)
    ensures WellFormed(s)
    ensures match Forward(s, step)
            case Err(e) => !ProtocolError(e)
            case Ok(t) =>
              var calls := [Submit(step.batch), Complete(Step(s, Submit(step.batch)).reply.ticket, Actual(step))];
              Tracks(cfg, events + calls, t) && t.pending == {}
  {
    CheckedSubmit(cfg, events, s, step.batch);
    var sent := SubmitStep(s, step.batch);
    if sent.reply.Returned? {
      var after := events + [Submit(step.batch)];
      var done := Complete(sent.reply.ticket, Actual(step));
      KnownComplete(cfg, after, sent.state, sent.reply.ticket, Actual(step));
      assert after + [done] == events + [Submit(step.batch), done];
    }
  }

  lemma DriveTracked(cfg: Config, events: seq<Event>, s: State, step: Feed)
    requires Tracks(cfg, events, s) && s.pending == {}
    ensures WellFormed(s)
    ensures match Drive(s, step)
            case Err(e) => !ProtocolError(e)
            case Ok(t) => Tracks(cfg, events + Calls(s, step), t) && t.pending == {}
  {
    DrainedBoundary(cfg, events, s, step.now, step.graph);
    var edge := BoundaryStep(s, step.now, step.graph);
    if edge.reply.Returned? && !step.halted {
      var after := events + [Boundary(step.now, step.graph)];
      ForwardTracked(cfg, after, edge.state, step);
      if Drive(s, step).Ok? {
        var calls := Calls(s, step);
        assert after + calls[1..] == events + calls;
      }
    }
  }

  lemma {:induction false} LoopTracked(cfg: Config, script: seq<Feed>)
    requires ValidConfig(cfg)
    ensures match DriveAll(Init(cfg), script)
            case Err(e) => !ProtocolError(e)
            case Ok(s) => Tracks(cfg, LoopCalls(Init(cfg), script), s) && s.pending == {}
  {
    if script == [] {
      TracksInit(cfg);
    } else {
      var front := script[..|script| - 1];
      LoopTracked(cfg, front);
      var r := DriveAll(Init(cfg), front);
      if r.Ok? {
        DriveTracked(cfg, LoopCalls(Init(cfg), front), r.value, script[|script| - 1]);
      }
    }
  }

  /** Whatever the engine does, the loop meets no undrained boundary, crossed edge, unknown ticket or incomplete work. */
  lemma TaskKeepsProtocol(cfg: Config, script: seq<Feed>, now: real, graph: GraphStats)
    requires ValidConfig(cfg)
    ensures var r := Task(cfg, script, now, graph); r.Err? ==> !ProtocolError(r.error)
  {
    LoopTracked(cfg, script);
    var s := DriveAll(Init(cfg), script);
    if s.Ok? {
      DrainedBoundary(cfg, LoopCalls(Init(cfg), script), s.value, now, graph);
    }
  }

  /** A result is a finished measurement of the calls the loop made, after two synchronizations. */
  lemma TaskMeasures(cfg: Config, script: seq<Feed>, now: real, graph: GraphStats)
    requires ValidConfig(cfg) && Task(cfg, script, now, graph).Ok?
    ensures DriveAll(Init(cfg), script).Ok?
    ensures Finished(cfg, LoopCalls(Init(cfg), script) + [Boundary(now, graph)],
                     Task(cfg, script, now, graph).value)
  {
    LoopTracked(cfg, script);
    var s := DriveAll(Init(cfg), script).value;
    var events := LoopCalls(Init(cfg), script);
    DrainedBoundary(cfg, events, s, now, graph);
    TracksResult(cfg, events + [Boundary(now, graph)], BoundaryStep(s, now, graph).state);
  }
}
