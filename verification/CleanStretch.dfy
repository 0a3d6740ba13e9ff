/**
 When the native loop does produce a measurement: a clean stretch of warmupSteps + targetSteps decode steps
 suffices, from any point before the opening edge at which the window is not already warm for other requests.
 */
module CleanStretch {
  import opened Wrappers
  import opened DecodeWindow
  import opened DecodeWindowCalls
  import opened DecodeWindowStretch
  import opened SerialDriver
  import opened NativeDriver

  /** The steps as the window meets them. */
  ghost function Ticks(steps: seq<Feed>): (ticks: seq<Tick>)
    ensures |ticks| == |steps|
    ensures forall i :: 0 <= i < |steps| ==> ticks[i] == Tick(steps[i].now, steps[i].graph, steps[i].batch)
  {
    seq(|steps|, i requires 0 <= i < |steps| => Tick(steps[i].now, steps[i].graph, steps[i].batch))
  }

  /** A clean stretch all of whose tokens are published. */
  ghost predicate CleanSteps(cfg: Config, ids: seq<int>, steps: seq<Feed>) {
    Clean(cfg, ids, Ticks(steps)) && forall i :: 0 <= i < |steps| ==> steps[i].published == steps[i].batch.tokens && !steps[i].halted
  }

  /** `r` is the window before step `j` of the stretch, after the calls `events`. */
  ghost predicate Going(r: Result<State, Error>, cfg: Config, events: seq<Event>, ids: seq<int>, steps: seq<Feed>, j: nat) {
    r.Ok? && Tracks(cfg, events, r.value) && r.value.pending == {} && Along(r.value, ids, Ticks(steps), j)
  }

  lemma ForwardAlong(cfg: Config, events: seq<Event>, s: State, ids: seq<int>, steps: seq<Feed>, j: nat)
    requires Going(Ok(s), cfg, events, ids, steps, j) && j < |steps| && CleanSteps(cfg, ids, steps) && !NeedsBoundary(s)
    ensures WellFormed(s) && Forward(s, steps[j]).Ok? && Along(Forward(s, steps[j]).value, ids, Ticks(steps), j + 1)
  {
    TracksWellFormed(cfg, events, s);
    SubmitAlong(s, ids, Ticks(steps), j);
    assert CleanBatch(cfg, ids, Ticks(steps)[j].batch);
    var sent := SubmitStep(s, steps[j].batch);
    RightCount(cfg, events, s, steps[j].batch, Actual(steps[j]));
    CompleteAlong(sent.state, ids, Ticks(steps), j + 1, sent.reply.ticket, Actual(steps[j]));
  }

  lemma DriveAlong(cfg: Config, events: seq<Event>, s: State, ids: seq<int>, steps: seq<Feed>, j: nat)
    requires Going(Ok(s), cfg, events, ids, steps, j) && j < |steps| && CleanSteps(cfg, ids, steps)
    ensures WellFormed(s) && Drive(s, steps[j]).Ok?
    ensures Going(Drive(s, steps[j]), cfg, events + Calls(s, steps[j]), ids, steps, j + 1)
  {
    var step := steps[j];
    EdgeAlong(cfg, events, s, ids, Ticks(steps), j);
    DrainedBoundary(cfg, events, s, step.now, step.graph);
    var edge := BoundaryStep(s, step.now, step.graph).state;
    assert CleanBatch(cfg, ids, Ticks(steps)[j].batch);
    ForwardAlong(cfg, events + [Boundary(step.now, step.graph)], edge, ids, steps, j);
    DriveTracked(cfg, events, s, step);
  }

  lemma {:induction false} DriveAllAlong(cfg: Config, events: seq<Event>, s: State, ids: seq<int>, steps: seq<Feed>, j: nat)
    returns (after: seq<Event>)
    requires WellFormed(s) && Going(Ok(s), cfg, events, ids, steps, 0) && j <= |steps| && CleanSteps(cfg, ids, steps)
    ensures Going(DriveAll(s, steps[..j]), cfg, after, ids, steps, j)
  {
    if j == 0 {
      after := events;
    } else {
      after := DriveAllAlong(cfg, events, s, ids, steps, j - 1);
      var t := DriveAll(s, steps[..j - 1]).value;
      DriveAlong(cfg, after, t, ids, steps, j - 1);
      after := after + Calls(t, steps[j - 1]);
      DriveSnoc(s, steps, j - 1);
    }
  }

  /** The stretch and one more boundary, from `s` on. */
  ghost predicate Measures(s: State, steps: seq<Feed>, now: real, graph: GraphStats)
    requires WellFormed(s)
  {
    DriveAll(s, steps).Ok? && Measurement(DriveAll(s, steps).value, now, graph).Ok?
  }

  /** A clean stretch as long as the warmup and the measurement together, with one more reading after it. */
  ghost predicate CleanRun(cfg: Config, ids: seq<int>, steps: seq<Feed>, now: real, graph: GraphStats) {
    && CleanSteps(cfg, ids, steps) && |steps| == cfg.warmupSteps + cfg.targetSteps >= 1
    && Follows(Ticks(steps)[|steps| - 1], now, graph)
  }

  lemma StretchSucceeds(cfg: Config, events: seq<Event>, s: State, ids: seq<int>, steps: seq<Feed>,
                        now: real, graph: GraphStats)
    requires Tracks(cfg, events, s) && s.pending == {} && s.started == None && !WarmForOthers(s, ids)
    requires CleanRun(cfg, ids, steps, now, graph)
    ensures WellFormed(s) && Measures(s, steps, now, graph)
  {
    TracksWellFormed(cfg, events, s);
    AlongStart(cfg, events, s, ids, Ticks(steps));
    var after := DriveAllAlong(cfg, events, s, ids, steps, |steps|);
    assert steps[..|steps|] == steps;
    StretchCloses(cfg, after, DriveAll(s, steps).value, ids, Ticks(steps), now, graph);
  }

  lemma OthersMeetTurnover(cfg: Config, events: seq<Event>, s: State, ids: seq<int>, steps: seq<Feed>)
    requires Tracks(cfg, events, s) && s.pending == {} && s.started == None && WarmForOthers(s, ids)
    requires steps != [] && CleanSteps(cfg, ids, steps)
    ensures WellFormed(s) && DriveAll(s, steps).Err?
  {
    assert CleanBatch(cfg, ids, Ticks(steps)[0].batch);
    WrongRequests(cfg, events, s, ids, steps[0].now, steps[0].graph, steps[0].batch);
    assert steps[..0] == [];
    DriveSnoc(s, steps, 0);
    DriveStops(s, steps, 1);
  }

  /**
   From every state that a run without an exception leads to, before the opening edge and with nothing in flight,
   a clean run gives a result if and only if the window is not warm for other requests.
   */
  lemma StretchMeasured(cfg: Config, events: seq<Event>, s: State, ids: seq<int>, steps: seq<Feed>,
                        now: real, graph: GraphStats)
    requires Tracks(cfg, events, s) && s.pending == {} && s.started == None && CleanRun(cfg, ids, steps, now, graph)
    ensures WellFormed(s)
    ensures Measures(s, steps, now, graph) <==> !WarmForOthers(s, ids)
  {
    TracksWellFormed(cfg, events, s);
    if WarmForOthers(s, ids) {
      OthersMeetTurnover(cfg, events, s, ids, steps);
    } else {
      StretchSucceeds(cfg, events, s, ids, steps, now, graph);
    }
  }

  lemma {:induction false} DriveConcat(s: State, one: seq<Feed>, two: seq<Feed>)
    requires WellFormed(s)
    ensures var r := DriveAll(s, one);
            DriveAll(s, one + two) == if r.Err? then r else DriveAll(r.value, two)
  {
    if two == [] {
      assert one + two == one;
    } else {
      var front := two[..|two| - 1];
      assert (one + two)[..|one + two| - 1] == one + front;
      DriveConcat(s, one, front);
    }
  }

  lemma FeedsConcat(one: seq<EngineStep>, two: seq<EngineStep>, strictBatch: bool)
    ensures Feeds(one + two, strictBatch) == Feeds(one, strictBatch) + Feeds(two, strictBatch)
  {
  }

  /**
   The native loop from its start: whatever it did before, as long as nothing raised and the window has not
   opened, a clean run gives a result if and only if the window is not warm for other requests.
   */
  lemma LoopMeasures(cfg: Config, before: seq<EngineStep>, ids: seq<int>, steps: seq<EngineStep>, strictBatch: bool,
                     now: real, graph: GraphStats)
    requires ValidConfig(cfg) && DriveAll(Init(cfg), Feeds(before, strictBatch)).Ok?
    requires DriveAll(Init(cfg), Feeds(before, strictBatch)).value.started == None
    requires CleanRun(cfg, ids, Feeds(steps, strictBatch), now, graph)
    ensures Task(cfg, Feeds(before + steps, strictBatch), now, graph).Ok? <==>
            !WarmForOthers(DriveAll(Init(cfg), Feeds(before, strictBatch)).value, ids)
  {
    var one, two := Feeds(before, strictBatch), Feeds(steps, strictBatch);
    FeedsConcat(before, steps, strictBatch);
    LoopTracked(cfg, one);
    DriveConcat(Init(cfg), one, two);
    StretchMeasured(cfg, LoopCalls(Init(cfg), one), DriveAll(Init(cfg), one).value, ids, two, now, graph);
  }
}
