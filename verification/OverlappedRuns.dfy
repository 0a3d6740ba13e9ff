/** What holds of every run of the overlapping loop with the drain adapter. */
module OverlappedRuns {
  import opened Wrappers
  import opened DecodeWindow
  import opened DecodeWindowTheorems
  import opened DecodeWindowEdges
  import opened DecodeWindowCalls
  import opened QueueAdapter

  // ----- the queue holds exactly what is in flight

  ghost function OpenTickets(queue: seq<Held>): set<nat> {
    set i | 0 <= i < |queue| && queue[i].ticket.Some? :: queue[i].ticket.value
  }

  ghost predicate TicketsDiffer(queue: seq<Held>) {
    forall i, j :: 0 <= i < j < |queue| && queue[i].ticket.Some? ==> queue[i].ticket != queue[j].ticket
  }

  ghost function HandlesOf(queue: seq<Held>): (handles: seq<nat>)
    ensures |handles| == |queue|
  {
    seq(|queue|, i requires 0 <= i < |queue| => queue[i].handle)
  }

  /** The calls made lead to the window, the queue holds its open tickets, and no result was lost or repeated. */
  ghost predicate Sound(cfg: Config, l: Loop) {
    && Tracks(cfg, l.events, l.window)
    && OpenTickets(l.queue) == l.window.pending && TicketsDiffer(l.queue)
    && l.processed + HandlesOf(l.queue) == l.ran
  }

  /** The part of the window that completions do not touch. */
  ghost predicate SameMeasurement(s: State, t: State) { t == s.(pending := t.pending, records := t.records) }

  lemma TicketsPop(queue: seq<Held>)
    requires queue != [] && TicketsDiffer(queue)
    ensures TicketsDiffer(queue[1..]) && OpenTickets(queue[1..]) == OpenTickets(queue) - TicketSet(queue[0].ticket)
    ensures TicketSet(queue[0].ticket) <= OpenTickets(queue)
  {
    var rest := queue[1..];
    assert forall i :: 0 <= i < |rest| ==> rest[i] == queue[i + 1];
    forall t | t in OpenTickets(queue) && t !in TicketSet(queue[0].ticket) ensures t in OpenTickets(rest) {
      var i :| 0 <= i < |queue| && queue[i].ticket == Some(t);
      assert rest[i - 1].ticket == Some(t);
    }
  }

  lemma TicketsPush(queue: seq<Held>, held: Held)
    requires TicketsDiffer(queue) && (held.ticket.Some? ==> held.ticket.value !in OpenTickets(queue))
    ensures TicketsDiffer(queue + [held]) && OpenTickets(queue + [held]) == OpenTickets(queue) + TicketSet(held.ticket)
  {
    var longer := queue + [held];
    assert longer[|queue|] == held;
    forall t | t in OpenTickets(queue) ensures t in OpenTickets(longer) {
      var i :| 0 <= i < |queue| && queue[i].ticket == Some(t);
      assert longer[i].ticket == Some(t);
    }
    forall i | 0 <= i < |queue| && queue[i].ticket.Some? ensures queue[i].ticket != held.ticket {
      assert queue[i].ticket.value in OpenTickets(queue);
    }
  }

  lemma HandlesPop(queue: seq<Held>, processed: seq<nat>)
    requires queue != []
    ensures processed + [queue[0].handle] + HandlesOf(queue[1..]) == processed + HandlesOf(queue)
  {
    assert HandlesOf(queue) == [queue[0].handle] + HandlesOf(queue[1..]);
  }

  /** Processing the head can fail on the token count only. */
  lemma ProcessSound(cfg: Config, l: Loop)
    requires Sound(cfg, l) && l.queue != []
    ensures WellFormed(l.window)
    ensures match ProcessHead(l)
            case Err(e) => e == OfWindow(TokenMismatch)
            case Ok(m) => Sound(cfg, m) && SameMeasurement(l.window, m.window) && m.counters == l.counters
  {
    TicketsPop(l.queue);
    KnownComplete(cfg, l.events, l.window, l.queue[0].ticket, l.queue[0].billed);
    HandlesPop(l.queue, l.processed);
  }

  lemma {:induction false} DrainSound(cfg: Config, l: Loop)
    requires Sound(cfg, l)
    ensures WellFormed(l.window)
    ensures match DrainQueue(l)
            case Err(e) => e == OfWindow(TokenMismatch)
            case Ok(m) => Sound(cfg, m) && SameMeasurement(l.window, m.window) && m.counters == l.counters
                          && m.queue == [] && m.window.pending == {}
    decreases |l.queue|
  {
    TracksWellFormed(cfg, l.events, l.window);
    if l.queue != [] {
      ProcessSound(cfg, l);
      if ProcessHead(l).Ok? {
        DrainSound(cfg, ProcessHead(l).value);
      }
    }
  }

  /** With nothing in flight the boundary can fail on the readings only, and leaves no edge behind. */
  lemma MeasureSound(cfg: Config, l: Loop, it: Iteration, rank: nat)
    requires Sound(cfg, l) && l.queue == []
    ensures WellFormed(l.window)
    ensures match MeasureEdge(l, it, rank)
            case Err(e) => e in {OfWindow(LostRanks), OfWindow(GraphContract), OfWindow(InvalidStageTime)}
            case Ok(m) => Sound(cfg, m) && !NeedsBoundary(m.window) && m.queue == []
  {
    DrainedBoundary(cfg, l.events, l.window, it.now, Readings(l.counters, it.others, rank));
  }

  lemma NextBatchSound(cfg: Config, l: Loop, it: Iteration, rank: nat)
    requires Sound(cfg, l)
    ensures WellFormed(l.window)
    ensures match NextBatch(l, it, rank)
            case Err(e) => e in {OfWindow(TokenMismatch), OfWindow(LostRanks), OfWindow(GraphContract), OfWindow(InvalidStageTime)}
            case Ok(m) => Sound(cfg, m) && !NeedsBoundary(m.window)
  {
    DrainSound(cfg, l);
    if NeedsBoundary(l.window) && DrainQueue(l).Ok? {
      MeasureSound(cfg, DrainQueue(l).value, it, rank);
    }
  }

  /** Away from an edge a run fails on the batch only; its ticket is the one thing added in flight. */
  lemma RunSound(cfg: Config, l: Loop, work: Work)
    requires Sound(cfg, l) && !NeedsBoundary(l.window)
    ensures WellFormed(l.window)
    ensures match RunBatch(l, work)
            case Err(e) => e in {OfWindow(Preemption), OfWindow(MissingContexts), OfWindow(Contaminated), OfWindow(ContextJump)}
            case Ok(m) => Sound(cfg, m)
  {
    var batch := WorkBatch(l.window.cfg, work);
    CheckedSubmit(cfg, l.events, l.window, batch);
    var r := SubmitStep(l.window, batch);
    if r.reply.Returned? {
      TicketsPush(l.queue, Held(work.handle, r.reply.ticket, Billed(work)));
      assert HandlesOf(l.queue + [Held(work.handle, r.reply.ticket, Billed(work))]) == HandlesOf(l.queue) + [work.handle];
    }
  }

  /** Errors that report the engine's behaviour, not a broken measurement protocol. */
  predicate KeepsProtocol(e: AdapterError) {
    e.OfWindow? && e.error !in {UndrainedBoundary, CrossedEdge, UnknownTicket, IncompleteWork}
  }

  lemma ChooseAndRunSound(cfg: Config, l: Loop, it: Iteration, rank: nat)
    requires Sound(cfg, l) && |l.queue| == (if l.lastBatch then 1 else 0)
    ensures WellFormed(l.window)
    ensures match ChooseAndRun(l, it, rank)
            case Err(e) => KeepsProtocol(e)
            case Ok(m) => Sound(cfg, m) && (m.lastBatch ==> m.queue != [])
  {
    NextBatchSound(cfg, l, it, rank);
    if NextBatch(l, it, rank).Ok? {
      NextBatchQueue(l, it, rank);
      if it.work.Some? {
        RunSound(cfg, NextBatch(l, it, rank).value, it.work.value);
      }
    }
  }

  /** An iteration breaks no rule of the protocol, whatever the scheduler does. */
  lemma TurnSound(cfg: Config, l: Loop, it: Iteration, rank: nat)
    requires Sound(cfg, l) && |l.queue| == (if l.lastBatch then 1 else 0)
    ensures WellFormed(l.window)
    ensures match Turn(l, it, rank)
            case Err(e) => KeepsProtocol(e)
            case Ok(m) => Sound(cfg, m) && |m.queue| == (if m.lastBatch then 1 else 0)
  {
    ChooseAndRunSound(cfg, l, it, rank);
    var r := ChooseAndRun(l, it, rank);
    if r.Ok? && r.value.lastBatch {
      ProcessSound(cfg, r.value);
    }
    if Turn(l, it, rank).Ok? {
      TurnWaits(l, it, rank);
    }
  }

  lemma StartSound(cfg: Config)
    requires ValidConfig(cfg)
    ensures Sound(cfg, StartLoop(cfg))
  {
    TracksInit(cfg);
  }

  lemma {:induction false} TurnsSound(cfg: Config, l: Loop, script: seq<Iteration>, rank: nat)
    requires Sound(cfg, l) && |l.queue| == (if l.lastBatch then 1 else 0)
    ensures WellFormed(l.window)
    ensures match Turns(l, script, rank)
            case Err(e) => KeepsProtocol(e)
            case Ok(m) => Sound(cfg, m) && |m.queue| == (if m.lastBatch then 1 else 0)
  {
    TracksWellFormed(cfg, l.events, l.window);
    if script != [] {
      var front := script[..|script| - 1];
      TurnsSound(cfg, l, front, rank);
      if Turns(l, front, rank).Ok? {
        TurnSound(cfg, Turns(l, front, rank).value, script[|script| - 1], rank);
      }
    }
  }

  // ----- what ran

  /** The handles of the batches of a script, in order. */
  ghost function Ran(script: seq<Iteration>): seq<nat> {
    if script == [] then []
    else Ran(script[..|script| - 1]) + (if script[|script| - 1].work.Some? then [script[|script| - 1].work.value.handle] else [])
  }

  lemma {:induction false} DrainRan(l: Loop)
    requires WellFormed(l.window) && DrainQueue(l).Ok?
    ensures DrainQueue(l).value.ran == l.ran
    decreases |l.queue|
  {
    if l.queue != [] {
      DrainRan(ProcessHead(l).value);
    }
  }

  lemma TurnRan(l: Loop, it: Iteration, rank: nat)
    requires WellFormed(l.window) && Turn(l, it, rank).Ok?
    ensures Turn(l, it, rank).value.ran == l.ran + (if it.work.Some? then [it.work.value.handle] else [])
  {
    if NeedsBoundary(l.window) {
      DrainRan(l);
    }
  }

  lemma {:induction false} TurnsRan(l: Loop, script: seq<Iteration>, rank: nat)
    requires WellFormed(l.window) && l.ran == [] && Turns(l, script, rank).Ok?
    ensures Turns(l, script, rank).value.ran == Ran(script)
  {
    if script != [] {
      TurnsRan(l, script[..|script| - 1], rank);
      TurnRan(Turns(l, script[..|script| - 1], rank).value, script[|script| - 1], rank);
    }
  }

  // ----- the whole loop

  /**
   For every script: the loop breaks no rule of the protocol, every result is processed exactly once in the order
   the batches ran, and a window result is a finished measurement of the calls the loop made.
   */
  lemma LoopSound(cfg: Config, script: seq<Iteration>, rank: nat)
    requires ValidConfig(cfg)
    ensures match WholeLoop(StartLoop(cfg), script, rank)
            case Err(e) => KeepsProtocol(e)
            case Ok(l) =>
              && l.queue == [] && l.window.pending == {} && l.processed == l.ran == Ran(script)
              && (l.window.result.Some? ==> Finished(cfg, l.events, l.window.result.value))
  {
    StartSound(cfg);
    TurnsSound(cfg, StartLoop(cfg), script, rank);
    var r := Turns(StartLoop(cfg), script, rank);
    if r.Ok? {
      TurnsRan(StartLoop(cfg), script, rank);
      DrainSound(cfg, r.value);
      if DrainQueue(r.value).Ok? {
        var l := DrainQueue(r.value).value;
        DrainRan(r.value);
        assert l.processed + HandlesOf(l.queue) == l.processed;
        if l.window.result.Some? {
          TracksResult(cfg, l.events, l.window);
        }
      }
    }
  }

  // ----- the graph counters

  /** Every gathering brings one reading of each of the `tp` ranks. */
  predicate Gathers(it: Iteration, rank: nat, tp: nat) { rank < tp && |it.others| == tp - 1 }

  /** Since the opening edge every measured step was one replay or one eager step of this rank. */
  ghost predicate Counted(s: State, c: Counters, rank: nat, tp: nat) {
    s.started.Some? && s.result == None ==>
      && s.graphBefore.Some? && s.graphBefore.value.Ranks? && rank < |s.graphBefore.value.ranks| == tp
      && var before := s.graphBefore.value.ranks[rank];
         c.capture >= before.capture && c.eager >= before.eager
         && (c.replay - before.replay) + (c.eager - before.eager) == s.steps
  }

  /** Work of this rank since the opening edge left the captured graph. */
  ghost predicate LeftGraph(s: State, c: Counters, rank: nat) {
    && s.graphBefore.Some? && s.graphBefore.value.Ranks? && rank < |s.graphBefore.value.ranks|
    && var before := s.graphBefore.value.ranks[rank];
       c.capture > before.capture || c.eager > before.eager
  }

  /** Another rank did not replay exactly the measured steps. */
  ghost predicate OtherLeftGraph(s: State, it: Iteration, c: Counters, rank: nat) {
    && s.graphBefore.Some? && s.graphBefore.value.Ranks? && |s.graphBefore.value.ranks| == |it.others| + 1
    && exists i :: 0 <= i <= |it.others| && i != rank
                   && !Replayed(s.graphBefore.value.ranks[i], RankReading(c, it.others, rank, i), s.steps)
  }

  ghost function RankReading(c: Counters, others: seq<Counters>, rank: nat, i: nat): Counters
    requires i <= |others|
  {
    if i < rank then (if i < |others| then others[i] else c) else if i == rank then c else others[i - 1]
  }

  lemma ReadingsAt(c: Counters, others: seq<Counters>, rank: nat)
    requires rank <= |others|
    ensures var r := Readings(c, others, rank);
            r.Ranks? && |r.ranks| == |others| + 1 && r.ranks[rank] == c
            && forall i :: 0 <= i <= |others| ==> r.ranks[i] == RankReading(c, others, rank, i)
  {
  }

  /**
   At a closing edge the graph contract is violated if and only if some rank's work left the captured graph: this
   one's by its own counters, another's by what it reported. No rank is ever lost.
   */
  lemma GraphContractExact(cfg: Config, l: Loop, it: Iteration, rank: nat, tp: nat)
    requires Sound(cfg, l) && l.queue == [] && Counted(l.window, l.counters, rank, tp) && Gathers(it, rank, tp)
    ensures WellFormed(l.window) && MeasureEdge(l, it, rank) != Err(OfWindow(LostRanks))
    ensures NeedsBoundary(l.window) && l.window.started.Some? ==>
              (MeasureEdge(l, it, rank) == Err(OfWindow(GraphContract)) <==>
               LeftGraph(l.window, l.counters, rank) || OtherLeftGraph(l.window, it, l.counters, rank))
  {
    var s, readings := l.window, Readings(l.counters, it.others, rank);
    DrainedBoundary(cfg, l.events, s, it.now, readings);
    ReadingsAt(l.counters, it.others, rank);
    if NeedsBoundary(s) && s.started.Some? {
      GraphDeltaExact(s.graphBefore.value, readings, s.steps);
      GraphDeltaKinds(s.graphBefore.value, readings, s.steps);
      RanksReplayed(s, it, l.counters, rank, tp);
    }
  }

  /** With as many ranks as before, a refused reading is a violated contract. */
  lemma GraphDeltaKinds(before: GraphStats, after: GraphStats, steps: int)
    requires before.Ranks? && after.Ranks? && |before.ranks| == |after.ranks| >= 1
    ensures GraphDelta(before, after, steps).Err? ==> GraphDelta(before, after, steps).error == GraphContract
  {
    RanksDeltaExact(before.ranks, after.ranks, steps);
  }

  lemma RanksReplayed(s: State, it: Iteration, c: Counters, rank: nat, tp: nat)
    requires s.started.Some? && s.result == None && Counted(s, c, rank, tp) && Gathers(it, rank, tp)
    ensures var readings := Readings(c, it.others, rank);
            readings.Ranks? && |readings.ranks| == tp
            && ((forall i :: 0 <= i < tp ==> Replayed(s.graphBefore.value.ranks[i], readings.ranks[i], s.steps)) <==>
                !LeftGraph(s, c, rank) && !OtherLeftGraph(s, it, c, rank))
  {
    ReadingsAt(c, it.others, rank);
    var before, after := s.graphBefore.value.ranks, Readings(c, it.others, rank).ranks;
    assert Replayed(before[rank], c, s.steps) <==> !LeftGraph(s, c, rank);
    if forall i :: 0 <= i < tp ==> Replayed(before[i], after[i], s.steps) {
      assert forall i :: 0 <= i <= |it.others| && i != rank ==> Replayed(before[i], RankReading(c, it.others, rank, i), s.steps);
    } else if !LeftGraph(s, c, rank) {
      var i :| 0 <= i < tp && !Replayed(before[i], after[i], s.steps);
      assert !Replayed(before[i], RankReading(c, it.others, rank, i), s.steps);
    }
  }

  /** A submission never moves an edge; while measuring it is a decode step and counts one. */
  lemma SubmitScalars(s: State, b: Batch)
    requires SubmitStep(s, b).reply.Returned?
    ensures var t := SubmitStep(s, b).state;
            t.started == s.started && t.result == s.result && t.graphBefore == s.graphBefore
            && (s.started.Some? && s.result == None ==> b.isDecode && t.steps == s.steps + 1)
  {
  }

  lemma RunCounted(l: Loop, work: Work, rank: nat, tp: nat)
    requires WellFormed(l.window) && Counted(l.window, l.counters, rank, tp) && RunBatch(l, work).Ok?
    ensures Counted(RunBatch(l, work).value.window, RunBatch(l, work).value.counters, rank, tp)
  {
    SubmitScalars(l.window, WorkBatch(l.window.cfg, work));
  }

  lemma MeasureCounted(cfg: Config, l: Loop, it: Iteration, rank: nat, tp: nat)
    requires Sound(cfg, l) && Counted(l.window, l.counters, rank, tp) && Gathers(it, rank, tp)
    requires WellFormed(l.window) && l.window.pending == {} && NeedsBoundary(l.window) && MeasureEdge(l, it, rank).Ok?
    ensures Counted(MeasureEdge(l, it, rank).value.window, l.counters, rank, tp)
  {
    if l.window.started == None {
      Unopened(cfg, l.events, l.window);
    }
    ReadingsAt(l.counters, it.others, rank);
  }

  lemma TurnCounted(cfg: Config, l: Loop, it: Iteration, rank: nat, tp: nat)
    requires Sound(cfg, l) && |l.queue| == (if l.lastBatch then 1 else 0)
    requires Counted(l.window, l.counters, rank, tp) && Gathers(it, rank, tp)
    requires WellFormed(l.window) && Turn(l, it, rank).Ok?
    ensures Counted(Turn(l, it, rank).value.window, Turn(l, it, rank).value.counters, rank, tp)
  {
    DrainSound(cfg, l);
    if NeedsBoundary(l.window) {
      MeasureCounted(cfg, DrainQueue(l).value, it, rank, tp);
    }
    ChooseAndRunSound(cfg, l, it, rank);
    if it.work.Some? {
      RunCounted(NextBatch(l, it, rank).value, it.work.value, rank, tp);
    }
    var m := ChooseAndRun(l, it, rank).value;
    if m.lastBatch {
      ProcessSound(cfg, m);
    }
  }

  /** The counters are accounted for after every run of the loop. */
  lemma {:induction false} TurnsCounted(cfg: Config, script: seq<Iteration>, rank: nat, tp: nat)
    requires ValidConfig(cfg) && Turns(StartLoop(cfg), script, rank).Ok?
    requires forall i :: 0 <= i < |script| ==> Gathers(script[i], rank, tp)
    ensures var l := Turns(StartLoop(cfg), script, rank).value; Counted(l.window, l.counters, rank, tp)
  {
    if script != [] {
      var front := script[..|script| - 1];
      TurnsCounted(cfg, front, rank, tp);
      StartSound(cfg);
      TurnsSound(cfg, StartLoop(cfg), front, rank);
      TurnCounted(cfg, Turns(StartLoop(cfg), front, rank).value, script[|script| - 1], rank, tp);
    }
  }

  lemma TurnKeepsRanks(cfg: Config, l: Loop, it: Iteration, rank: nat, tp: nat)
    requires Sound(cfg, l) && |l.queue| == (if l.lastBatch then 1 else 0)
    requires Counted(l.window, l.counters, rank, tp) && Gathers(it, rank, tp)
    ensures WellFormed(l.window) && Turn(l, it, rank) != Err(OfWindow(LostRanks))
  {
    DrainSound(cfg, l);
    NextBatchSound(cfg, l, it, rank);
    if NeedsBoundary(l.window) && DrainQueue(l).Ok? {
      GraphContractExact(cfg, DrainQueue(l).value, it, rank, tp);
    }
    if NextBatch(l, it, rank).Ok? && it.work.Some? {
      RunSound(cfg, NextBatch(l, it, rank).value, it.work.value);
    }
    ChooseAndRunSound(cfg, l, it, rank);
    if ChooseAndRun(l, it, rank).Ok? && ChooseAndRun(l, it, rank).value.lastBatch {
      ProcessSound(cfg, ChooseAndRun(l, it, rank).value);
    }
  }

  /** Gathering every rank at every edge, the loop never loses one. */
  lemma {:induction false} TurnsKeepRanks(cfg: Config, script: seq<Iteration>, rank: nat, tp: nat)
    requires ValidConfig(cfg) && forall i :: 0 <= i < |script| ==> Gathers(script[i], rank, tp)
    ensures Turns(StartLoop(cfg), script, rank) != Err(OfWindow(LostRanks))
  {
    if script != [] {
      var front := script[..|script| - 1];
      TurnsKeepRanks(cfg, front, rank, tp);
      StartSound(cfg);
      TurnsSound(cfg, StartLoop(cfg), front, rank);
      if Turns(StartLoop(cfg), front, rank).Ok? {
        TurnsCounted(cfg, front, rank, tp);
        TurnKeepsRanks(cfg, Turns(StartLoop(cfg), front, rank).value, script[|script| - 1], rank, tp);
      }
    }
  }
}
