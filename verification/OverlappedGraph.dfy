/**
 The graph contract of the overlapping loop over its script: at a closing edge it is violated exactly when a batch since
 the opening edge left the captured graph, or another rank reports that it did.
 */
module OverlappedGraph {
  import opened Wrappers
  import opened DecodeWindow
  import opened DecodeWindowTheorems
  import opened DecodeWindowCalls
  import opened QueueAdapter
  import opened OverlappedRuns
  import opened OverlappedSerial

  /** A decode batch off the captured graph, or a batch during which a graph was captured. */
  ghost predicate LeavesGraph(work: Work) { work.captures > 0 || (work.pure && !work.onGraph) }

  /** A batch from iteration `a` on left the captured graph. */
  ghost predicate LeftSince(script: seq<Iteration>, a: nat, n: nat)
    requires n <= |script|
  {
    exists i :: a <= i < n && script[i].work.Some? && LeavesGraph(script[i].work.value)
  }

  /** Counters only grow, and captures and eager steps by exactly the batches that leave the graph. */
  lemma {:induction false} CountersSince(script: seq<Iteration>, a: nat, n: nat)
    requires a <= n <= |script|
    ensures var c, d := CountersOf(script[..a]), CountersOf(script[..n]);
            && c.capture <= d.capture && c.eager <= d.eager
            && (d.capture > c.capture || d.eager > c.eager <==> LeftSince(script, a, n))
  {
    if a < n {
      CountersSince(script, a, n - 1);
      CountersNext(script, n - 1);
      if LeftSince(script, a, n - 1) {
        var i :| a <= i < n - 1 && script[i].work.Some? && LeavesGraph(script[i].work.value);
        assert LeftSince(script, a, n);
      } else if script[n - 1].work.Some? && LeavesGraph(script[n - 1].work.value) {
        assert LeftSince(script, a, n);
      }
    }
  }

  // ----- the opening edge

  /** The window is open since iteration `a`, on the readings gathered there. */
  ghost predicate OpenSince(script: seq<Iteration>, s: State, rank: nat, a: nat) {
    a < |script| && s.started == Some(script[a].now) && s.graphBefore == Some(Gathered(script, a, rank))
  }

  /** A boundary leaves an open window open, or opens it on its own readings. */
  lemma BoundaryOpens(s: State, now: real, graph: GraphStats)
    requires WellFormed(s) && BoundaryStep(s, now, graph).reply.Returned?
    ensures var t := BoundaryStep(s, now, graph).state;
            if s.started.Some? then t.started == s.started && t.graphBefore == s.graphBefore
            else t.started.Some? ==> t.started == Some(now) && t.graphBefore == Some(graph)
  {
  }

  lemma NextOpens(cfg: Config, l: Loop, it: Iteration, rank: nat)
    requires Sound(cfg, l) && WellFormed(l.window) && NextBatch(l, it, rank).Ok?
    ensures var s, t := l.window, NextBatch(l, it, rank).value.window;
            if s.started.Some? then t.started == s.started && t.graphBefore == s.graphBefore
            else t.started.Some? ==> t.started == Some(it.now) && t.graphBefore == Some(Readings(l.counters, it.others, rank))
  {
    if NeedsBoundary(l.window) {
      DrainSound(cfg, l);
      BoundaryOpens(DrainQueue(l).value.window, it.now, Readings(l.counters, it.others, rank));
    }
  }

  lemma TurnOpens(cfg: Config, l: Loop, it: Iteration, rank: nat)
    requires Sound(cfg, l) && |l.queue| == (if l.lastBatch then 1 else 0) && WellFormed(l.window) && Turn(l, it, rank).Ok?
    ensures var s, t := l.window, Turn(l, it, rank).value.window;
            if s.started.Some? then t.started == s.started && t.graphBefore == s.graphBefore
            else t.started.Some? ==> t.started == Some(it.now) && t.graphBefore == Some(Readings(l.counters, it.others, rank))
  {
    NextOpens(cfg, l, it, rank);
    ChooseAndRunSound(cfg, l, it, rank);
    if it.work.Some? {
      var chosen := NextBatch(l, it, rank).value.window;
      SubmitScalars(chosen, WorkBatch(chosen.cfg, it.work.value));
    }
    var m := ChooseAndRun(l, it, rank).value;
    if m.lastBatch {
      ProcessSound(cfg, m);
    }
    TracksWellFormed(cfg, l.events, l.window);
  }

  /** After any run, an open window was opened at some iteration, on what was gathered there. */
  lemma {:induction false} TurnsOpened(cfg: Config, script: seq<Iteration>, n: nat, rank: nat) returns (a: nat)
    requires ValidConfig(cfg) && n <= |script| && Turns(StartLoop(cfg), script[..n], rank).Ok?
    requires Turns(StartLoop(cfg), script[..n], rank).value.window.started.Some?
    ensures a < n && OpenSince(script, Turns(StartLoop(cfg), script[..n], rank).value.window, rank, a)
  {
    assert n > 0 by {
      assert script[..0] == [];
    }
    TurnsSnoc(StartLoop(cfg), script, n - 1, rank);
    TurnsRunTo(cfg, script, n - 1, rank);
    var l := Turns(StartLoop(cfg), script[..n - 1], rank).value;
    TurnOpens(cfg, l, script[n - 1], rank);
    if l.window.started.Some? {
      a := TurnsOpened(cfg, script, n - 1, rank);
    } else {
      a := n - 1;
    }
  }

  // ----- the closing edge

  /** Another rank's counters, from one iteration's gathering to another's, are not one replay for each step. */
  ghost predicate OtherLeft(script: seq<Iteration>, a: nat, n: nat, rank: nat, steps: int)
    requires a < |script| && n < |script|
  {
    exists i :: 0 <= i < |script[a].others| && i < |script[n].others| && !Replayed(script[a].others[i], script[n].others[i], steps)
  }

  ghost predicate AllGather(script: seq<Iteration>, rank: nat, tp: nat) {
    forall i :: 0 <= i < |script| ==> Gathers(script[i], rank, tp)
  }

  lemma OthersReported(script: seq<Iteration>, a: nat, n: nat, rank: nat, tp: nat, s: State, c: Counters)
    requires a < |script| && n < |script| && AllGather(script, rank, tp) && OpenSince(script, s, rank, a)
    ensures OtherLeftGraph(s, script[n], c, rank) <==> OtherLeft(script, a, n, rank, s.steps)
  {
    var before, others := script[a].others, script[n].others;
    ReadingsAt(CountersOf(script[..a]), before, rank);
    if j :| 0 <= j < |before| && j < |others| && !Replayed(before[j], others[j], s.steps) {
      var i := if j < rank then j else j + 1;
      assert s.graphBefore.value.ranks[i] == before[j] && RankReading(c, others, rank, i) == others[j];
    }
    if i :| 0 <= i <= |others| && i != rank && !Replayed(s.graphBefore.value.ranks[i], RankReading(c, others, rank, i), s.steps) {
      var j := if i < rank then i else i - 1;
      assert s.graphBefore.value.ranks[i] == before[j] && RankReading(c, others, rank, i) == others[j];
    }
  }

  /**
   At a closing edge after `n` iterations, with the window open since iteration `a`: the graph contract is violated if and
   only if a batch that ran since then left the captured graph, or another rank's counters say so. No rank is lost.
   */
  lemma ContractExact(cfg: Config, script: seq<Iteration>, n: nat, rank: nat, tp: nat) returns (a: nat)
    requires ValidConfig(cfg) && n < |script| && AllGather(script, rank, tp)
    requires Turns(StartLoop(cfg), script[..n], rank).Ok?
    requires var l := Turns(StartLoop(cfg), script[..n], rank).value;
             l.window.started.Some? && NeedsBoundary(l.window) && DrainQueue(l).Ok?
    ensures var l := Turns(StartLoop(cfg), script[..n], rank).value;
            && a < n && OpenSince(script, l.window, rank, a)
            && NextBatch(l, script[n], rank) != Err(OfWindow(LostRanks))
            && (NextBatch(l, script[n], rank) == Err(OfWindow(GraphContract)) <==>
                LeftSince(script, a, n) || OtherLeft(script, a, n, rank, cfg.targetSteps))
  {
    var l := Turns(StartLoop(cfg), script[..n], rank).value;
    a := TurnsOpened(cfg, script, n, rank);
    TurnsRunTo(cfg, script, n, rank);
    forall i | 0 <= i < n ensures Gathers(script[..n][i], rank, tp) {
    }
    TurnsCounted(cfg, script[..n], rank, tp);
    DrainSound(cfg, l);
    var m := DrainQueue(l).value;
    GraphContractExact(cfg, m, script[n], rank, tp);
    CountersSince(script, a, n);
    ReadingsAt(CountersOf(script[..a]), script[a].others, rank);
    OthersReported(script, a, n, rank, tp, m.window, m.counters);
    TracksWellFormed(cfg, l.events, l.window);
  }
}
