/** Where a measurement lies in its run: the two boundary calls it was read at, and what happens between them. */
module DecodeWindowEdges {
  import opened Wrappers
  import opened DecodeWindow
  import opened DecodeWindowHistory
  import opened DecodeWindowTheorems

  // ----- what one call can do to the opening, the result, the history and the open tickets

  ghost predicate MovesOpening(t: Trace, e: Event, t': Trace) {
    if t.state.started.Some? then
      t'.state.started == t.state.started && t'.state.graphBefore == t.state.graphBefore
      && |t'.history| - |t.history| == t'.state.steps - t.state.steps
    else
      t'.state.started.Some? ==>
        && e.Boundary? && t'.state.started == Some(e.now) && t'.state.graphBefore == Some(e.graph)
        && t.state.pending == {} && t'.state.steps == 0 && t'.history == t.history
  }

  ghost predicate MovesResult(cfg: Config, t: Trace, e: Event, t': Trace) {
    if t.state.result.Some? then t' == t && !(e.Complete? && e.ticket.Some?)
    else
      t'.state.result.Some? ==>
        && e.Boundary? && t.state.pending == {} && t.state.started.Some? && t.state.graphBefore.Some?
        && t.state.steps == cfg.targetSteps && t'.history == t.history && t'.state.steps == t.state.steps
        && t'.state.result.value.finished == e.now && t'.state.result.value.started == t.state.started.value
        && GraphDelta(t.state.graphBefore.value, e.graph, cfg.targetSteps) == Ok(t'.state.result.value.graphDelta)
  }

  ghost predicate MovesTickets(t: Trace, e: Event, t': Trace) {
    && t.history <= t'.history
    && (forall p :: p in t.state.pending ==> p < |t.history|)
    && (forall p :: p in t'.state.pending ==> p in t.state.pending || p == |t.history|)
    && (e.Complete? && e.ticket.Some? ==> e.ticket.value in t.state.pending)
  }

  ghost predicate Moves(cfg: Config, t: Trace, e: Event, t': Trace) {
    MovesOpening(t, e, t') && MovesResult(cfg, t, e, t') && MovesTickets(t, e, t')
  }

  lemma BoundaryMoves(cfg: Config, t: Trace, e: Event)
    requires ValidConfig(cfg) && WellFormed(t.state) && Good(cfg, t) && e.Boundary? && Next(cfg, t, e).Some?
    ensures Moves(cfg, t, e, Next(cfg, t, e).value)
  {
    assert t.state.started == None ==> Warming(t.state, t.history);
    if t.state.result.Some? {
      ResultFinal(t.state, t.history, e);
    }
  }

  lemma SubmitMoves(cfg: Config, t: Trace, e: Event)
    requires ValidConfig(cfg) && WellFormed(t.state) && Good(cfg, t) && e.Submit? && Next(cfg, t, e).Some?
    ensures Moves(cfg, t, e, Next(cfg, t, e).value)
  {
    assert t.state.started == None ==> Warming(t.state, t.history);
    if t.state.result.Some? {
      ResultFinal(t.state, t.history, e);
    }
  }

  lemma CompleteMoves(cfg: Config, t: Trace, e: Event)
    requires ValidConfig(cfg) && WellFormed(t.state) && Good(cfg, t) && e.Complete? && Next(cfg, t, e).Some?
    ensures Moves(cfg, t, e, Next(cfg, t, e).value)
  {
    assert t.state.started == None ==> Warming(t.state, t.history);
    if t.state.result.Some? {
      ResultFinal(t.state, t.history, e);
    }
  }

  // ----- a run as the list of its traces

  /** `ts[k]` is where the first `k` calls lead. */
  ghost predicate Traces(cfg: Config, events: seq<Event>, ts: seq<Trace>)
    requires ValidConfig(cfg)
  {
    |ts| == |events| + 1 && forall k :: 0 <= k <= |events| ==> Run(cfg, events[..k]) == Some(ts[k])
  }

  ghost predicate Chained(cfg: Config, events: seq<Event>, ts: seq<Trace>) {
    && |ts| == |events| + 1 && ts[0] == Start(cfg)
    && forall k :: 0 <= k < |events| ==> Moves(cfg, ts[k], events[k], ts[k + 1])
  }

  lemma RunMoves(cfg: Config, events: seq<Event>, e: Event)
    requires ValidConfig(cfg) && Run(cfg, events + [e]).Some?
    ensures Run(cfg, events).Some? && Moves(cfg, Run(cfg, events).value, e, Run(cfg, events + [e]).value)
  {
    assert (events + [e])[..|events|] == events;
    var t := Run(cfg, events).value;
    RunExplained(cfg, events);
    match e
    case Boundary(_, _) => BoundaryMoves(cfg, t, e);
    case Submit(_) => SubmitMoves(cfg, t, e);
    case Complete(_, _) => CompleteMoves(cfg, t, e);
  }

  lemma {:induction false} PrefixRuns(cfg: Config, events: seq<Event>, k: nat)
    requires ValidConfig(cfg) && Run(cfg, events).Some? && k <= |events|
    ensures Run(cfg, events[..k]).Some?
    decreases |events|
  {
    if k < |events| {
      PrefixRuns(cfg, events[..|events| - 1], k);
      assert events[..|events| - 1][..k] == events[..k];
    } else {
      assert events[..k] == events;
    }
  }

  lemma TracesExist(cfg: Config, events: seq<Event>) returns (ts: seq<Trace>)
    requires ValidConfig(cfg) && Run(cfg, events).Some?
    ensures Traces(cfg, events, ts)
  {
    forall k | 0 <= k <= |events| ensures Run(cfg, events[..k]).Some? {
      PrefixRuns(cfg, events, k);
    }
    ts := seq(|events| + 1, k requires 0 <= k <= |events| => Run(cfg, events[..k]).value);
  }

  lemma TracesChain(cfg: Config, events: seq<Event>, ts: seq<Trace>)
    requires ValidConfig(cfg) && Traces(cfg, events, ts)
    ensures Chained(cfg, events, ts)
  {
    assert events[..0] == [];
    forall k | 0 <= k < |events| ensures Moves(cfg, ts[k], events[k], ts[k + 1]) {
      assert events[..k + 1] == events[..k] + [events[k]];
      RunMoves(cfg, events[..k], events[k]);
    }
  }

  // ----- along the chain

  lemma {:induction false} HistoryGrows(cfg: Config, events: seq<Event>, ts: seq<Trace>, k: nat, n: nat)
    requires Chained(cfg, events, ts) && k <= n <= |events|
    ensures ts[k].history <= ts[n].history
    decreases n
  {
    if k < n {
      HistoryGrows(cfg, events, ts, k, n - 1);
    }
  }

  /** The boundary call that opened the window: nothing was in flight, and the steps are the tickets issued since. */
  lemma {:induction false} OpenedSomewhere(cfg: Config, events: seq<Event>, ts: seq<Trace>, n: nat) returns (i: nat)
    requires Chained(cfg, events, ts) && n <= |events| && ts[n].state.started.Some?
    ensures i < n && events[i].Boundary? && ts[i].state.pending == {} && |ts[i].history| + ts[n].state.steps == |ts[n].history|
    ensures ts[n].state.started == Some(events[i].now) && ts[n].state.graphBefore == Some(events[i].graph)
  {
    assert n > 0;
    assert Moves(cfg, ts[n - 1], events[n - 1], ts[n]);
    if ts[n - 1].state.started.Some? {
      i := OpenedSomewhere(cfg, events, ts, n - 1);
    } else {
      i := n - 1;
    }
  }

  /** The call that made the result; nothing changed after it, and no ticket was completed. */
  lemma {:induction false} ClosedSomewhere(cfg: Config, events: seq<Event>, ts: seq<Trace>, n: nat) returns (j: nat)
    requires Chained(cfg, events, ts) && n <= |events| && ts[n].state.result.Some?
    ensures j < n && ts[j].state.result == None && ts[j + 1] == ts[n]
    ensures forall k :: j < k < n ==> !(events[k].Complete? && events[k].ticket.Some?)
  {
    assert n > 0;
    assert Moves(cfg, ts[n - 1], events[n - 1], ts[n]);
    if ts[n - 1].state.result.Some? {
      j := ClosedSomewhere(cfg, events, ts, n - 1);
    } else {
      j := n - 1;
    }
  }

  /** A row that is complete stays complete. */
  lemma {:induction false} StaysComplete(cfg: Config, events: seq<Event>, ts: seq<Trace>, i: nat, k: nat, t: nat)
    requires Chained(cfg, events, ts) && i <= k <= |events| && ts[i].state.pending == {} && t < |ts[i].history|
    ensures t !in ts[k].state.pending
    decreases k
  {
    if i < k {
      StaysComplete(cfg, events, ts, i, k - 1, t);
      HistoryGrows(cfg, events, ts, i, k - 1);
      assert Moves(cfg, ts[k - 1], events[k - 1], ts[k]);
    }
  }

  /** With nothing in flight at `i`: the tickets completed before it are those issued before it. */
  lemma CompletionTicket(cfg: Config, events: seq<Event>, ts: seq<Trace>, k: nat, i: nat)
    requires Chained(cfg, events, ts) && k < |events| && i <= |events| && ts[i].state.pending == {}
    requires events[k].Complete? && events[k].ticket.Some?
    ensures events[k].ticket.value < |ts[i].history| <==> k < i
  {
    var t := events[k].ticket.value;
    assert Moves(cfg, ts[k], events[k], ts[k + 1]);
    if k < i {
      HistoryGrows(cfg, events, ts, k, i);
    } else if t < |ts[i].history| {
      StaysComplete(cfg, events, ts, i, k, t);
    }
  }

  // ----- the theorem

  /**
   The measurement's place in the run: it was read at the boundary calls `i` and `j`, nothing was in flight at
   either, and between them lie exactly the submissions and the completions of the measured tickets.
   */
  ghost predicate ReadBetween(cfg: Config, events: seq<Event>, ts: seq<Trace>, i: nat, j: nat, r: WindowResult)
    requires |ts| == |events| + 1
  {
    var open := |ts[|events|].history| - cfg.targetSteps;
    && i < j < |events|
    && events[i].Boundary? && events[j].Boundary? && r.started == events[i].now && r.finished == events[j].now
    && GraphDelta(events[i].graph, events[j].graph, cfg.targetSteps) == Ok(r.graphDelta)
    && ts[i].state.pending == {} && ts[j].state.pending == {}
    && |ts[i].history| == open && ts[j].history == ts[|events|].history
    && (forall k :: 0 <= k < |events| && events[k].Complete? && events[k].ticket.Some? ==>
          (i < k < j <==> open <= events[k].ticket.value))
  }

  lemma EdgesFound(cfg: Config, events: seq<Event>, ts: seq<Trace>)
    requires Chained(cfg, events, ts) && ts[|events|].state.result.Some?
    ensures exists i, j :: ReadBetween(cfg, events, ts, i, j, ts[|events|].state.result.value)
  {
    var j := ClosedSomewhere(cfg, events, ts, |events|);
    assert Moves(cfg, ts[j], events[j], ts[j + 1]);
    var i := OpenedSomewhere(cfg, events, ts, j);
    forall k | 0 <= k < |events| && events[k].Complete? && events[k].ticket.Some?
      ensures i < k < j <==> |ts[i].history| <= events[k].ticket.value
    {
      CompletionTicket(cfg, events, ts, k, i);
    }
    assert ReadBetween(cfg, events, ts, i, j, ts[|events|].state.result.value);
  }

  /** For every run with a result, with `ts[k]` what its first `k` calls lead to. */
  lemma MeasuredBetween(cfg: Config, events: seq<Event>) returns (ts: seq<Trace>)
    requires ValidConfig(cfg) && Run(cfg, events).Some? && Run(cfg, events).value.state.result.Some?
    ensures Traces(cfg, events, ts)
    ensures exists i, j :: ReadBetween(cfg, events, ts, i, j, Run(cfg, events).value.state.result.value)
  {
    ts := TracesExist(cfg, events);
    TracesChain(cfg, events, ts);
    assert events[..|events|] == events;
    EdgesFound(cfg, events, ts);
  }

  /** All that is claimed of a result `r` of the run `events`. */
  ghost predicate Finished(cfg: Config, events: seq<Event>, r: WindowResult)
    requires ValidConfig(cfg)
  {
    && Run(cfg, events).Some?
    && var t := Run(cfg, events).value;
       && t.state.result == Some(r)
       && WindowRows(cfg, t, r) && WindowTotals(cfg, t.state, r) && StartContexts(cfg, t, r)
       && exists ts, i, j :: Traces(cfg, events, ts) && ReadBetween(cfg, events, ts, i, j, r)
  }

  lemma ResultFinished(cfg: Config, events: seq<Event>)
    requires ValidConfig(cfg) && Run(cfg, events).Some? && Run(cfg, events).value.state.result.Some?
    ensures Finished(cfg, events, Run(cfg, events).value.state.result.value)
  {
    MeasuredWindow(cfg, events);
    var ts := MeasuredBetween(cfg, events);
  }
}
