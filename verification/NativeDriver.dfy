/**
 The native benchmark loop of benchmark/microbench.py around the window: before each engine step a
 boundary, after it a submission and its completion. The engine is a script of step outcomes.

 The loop as a function of the script comes first, then the loop over the window object, which computes
 it, then what holds of every script.
 */
module NativeDriver {
  import opened Wrappers
  import opened DecodeWindow
  import opened DecodeWindowObject
  import opened SerialDriver

  /** One loop iteration as the engine presents it; `numTokens` is negative for a decode step. */
  datatype EngineStep = EngineStep(
    now: real, graph: GraphStats, ids: seq<int>, contexts: seq<int>, admitted: bool,
    numTokens: int, preemptions: int, published: int)

  function StepBatch(step: EngineStep): Batch {
    Batch(step.numTokens < 0, step.ids, if step.numTokens < 0 then -step.numTokens else step.numTokens,
          step.admitted, step.contexts, step.preemptions)
  }

  /** What a step feeds to the window; with a strict batch the driver stops at a preemption. */
  function FeedOf(step: EngineStep, strictBatch: bool): Feed {
    Feed(step.now, step.graph, StepBatch(step), step.published, strictBatch && step.preemptions != 0)
  }

  function Feeds(script: seq<EngineStep>, strictBatch: bool): (feeds: seq<Feed>)
    ensures |feeds| == |script| && forall i :: 0 <= i < |script| ==> feeds[i] == FeedOf(script[i], strictBatch)
  {
    seq(|script|, i requires 0 <= i < |script| => FeedOf(script[i], strictBatch))
  }

  // ----- the loop over the window object

  function ReplyOutcome(s: State, reply: Reply): Result<State, Error> { Outcome(Stepped(s, reply)) }

  /** The submission of a step and its completion. */
  method SendAndFinish(w: PipelinedDecodeWindow, step: EngineStep) returns (reply: Reply)
    requires w.Valid()
    modifies w, w.rows
    ensures w.Valid() && WellFormed(old(w.View()))
    ensures ReplyOutcome(w.View(), reply) == Forward(old(w.View()), FeedOf(step, false))
    ensures fresh(w.rows - old(w.rows))
  {
    reply := w.Submit(StepBatch(step));
    if reply.Returned? {
      reply := w.Complete(reply.ticket, Actual(FeedOf(step, false)));
    }
  }

  /** One iteration of the loop: boundary, engine step, submission, completion. */
  method Iterate(w: PipelinedDecodeWindow, step: EngineStep, strictBatch: bool) returns (reply: Reply)
    requires w.Valid()
    modifies w, w.rows
    ensures w.Valid() && WellFormed(old(w.View()))
    ensures ReplyOutcome(w.View(), reply) == Drive(old(w.View()), FeedOf(step, strictBatch))
    ensures fresh(w.rows - old(w.rows))
  {
    reply := w.Boundary(step.now, step.graph);
    if reply.Raised? {
      return;
    }
    if strictBatch && step.preemptions != 0 {
      return Raised(Preemption);
    }
    reply := SendAndFinish(w, step);
  }

  /** The boundary after the loop, which may close the window, and the demand for its result. */
  method Close(w: PipelinedDecodeWindow, now: real, graph: GraphStats) returns (r: Result<WindowResult, Error>)
    requires w.Valid()
    modifies w
    ensures w.Valid() && WellFormed(old(w.View()))
    ensures r == Measurement(old(w.View()), now, graph)
  {
    var reply := w.Boundary(now, graph);
    if reply.Raised? {
      return Err(reply.error);
    }
    r := w.RequireResult();
  }

  /** The first `i` iterations of a new window raised nothing and led here. */
  ghost predicate Driven(w: PipelinedDecodeWindow, script: seq<EngineStep>, i: nat, strictBatch: bool)
    requires i <= |script|
    reads w, w.rows
  {
    w.Valid() && ValidConfig(w.cfg) && DriveAll(Init(w.cfg), Feeds(script, strictBatch)[..i]) == Ok(w.View())
  }

  /** Iteration `i` of a script, after all before it. */
  method IterateAt(w: PipelinedDecodeWindow, script: seq<EngineStep>, i: nat, strictBatch: bool) returns (reply: Reply)
    requires i < |script| && Driven(w, script, i, strictBatch)
    modifies w, w.rows
    ensures fresh(w.rows - old(w.rows)) && ValidConfig(w.cfg)
    ensures reply.Returned? ==> Driven(w, script, i + 1, strictBatch)
    ensures reply.Raised? ==> w.Valid() && DriveAll(Init(w.cfg), Feeds(script, strictBatch)) == Err(reply.error)
  {
    DriveSnoc(Init(w.cfg), Feeds(script, strictBatch), i);
    reply := Iterate(w, script[i], strictBatch);
    if reply.Raised? {
      DriveStops(Init(w.cfg), Feeds(script, strictBatch), i + 1);
    }
  }

  /** The iterations, from a new window. */
  method Iterations(w: PipelinedDecodeWindow, script: seq<EngineStep>, strictBatch: bool) returns (reply: Reply)
    requires Driven(w, script, 0, strictBatch) && w.rows == {}
    modifies w
    ensures fresh(w.rows) && ValidConfig(w.cfg)
    ensures reply.Returned? ==> Driven(w, script, |script|, strictBatch)
    ensures reply.Raised? ==> w.Valid() && DriveAll(Init(w.cfg), Feeds(script, strictBatch)) == Err(reply.error)
  {
    reply := Returned(None);
    var i := 0;
    while i < |script|
      invariant 0 <= i <= |script| && reply.Returned?
      invariant Driven(w, script, i, strictBatch) && fresh(w.rows)
    {
      reply := IterateAt(w, script, i, strictBatch);
      if reply.Raised? {
        return;
      }
      i := i + 1;
    }
  }

  method BenchmarkTask(w: PipelinedDecodeWindow, script: seq<EngineStep>, strictBatch: bool,
                       lastNow: real, lastGraph: GraphStats)
    returns (r: Result<WindowResult, Error>)
    requires w.Valid() && w.rows == {} && w.View() == Init(w.cfg)
    modifies w
    ensures w.Valid() && ValidConfig(w.cfg)
    ensures r == Task(w.cfg, Feeds(script, strictBatch), lastNow, lastGraph)
  {
    var reply := Iterations(w, script, strictBatch);
    assert Feeds(script, strictBatch)[..|script|] == Feeds(script, strictBatch);
    if reply.Raised? {
      return Err(reply.error);
    }
    r := Close(w, lastNow, lastGraph);
  }

  // ----- every script

  /** Whatever the engine does, the loop meets no undrained boundary, crossed edge, unknown ticket or incomplete work. */
  lemma NativeProtocol(cfg: Config, script: seq<EngineStep>, strictBatch: bool, now: real, graph: GraphStats)
    requires ValidConfig(cfg)
    ensures var r := Task(cfg, Feeds(script, strictBatch), now, graph); r.Err? ==> !ProtocolError(r.error)
  {
    TaskKeepsProtocol(cfg, Feeds(script, strictBatch), now, graph);
  }
}
