/**
 When the overlapping loop does produce a measurement: a clean stretch of warmupSteps + targetSteps batches, and
 one more iteration, suffice from any point before the opening edge exactly when the window is not already warm for
 other requests and the result still waiting has the right count.
 */
module OverlappedStretch {
  import opened Wrappers
  import opened DecodeWindow
  import opened DecodeWindowCalls
  import opened DecodeWindowStretch
  import opened QueueAdapter
  import opened OverlappedRuns

  /** A decode batch on the captured graph whose tokens are all published. */
  ghost predicate CleanWork(it: Iteration) {
    && it.work.Some?
    && var work := it.work.value;
       work.pure && work.onGraph && work.captures == 0 && work.preemptions == 0 && work.published == |work.ids|
  }

  function After(c: Counters, steps: nat): Counters { c.(replay := c.replay + steps) }

  /** The iterations as the window meets them, from counters `c` on. */
  ghost function Ticks(cfg: Config, c: Counters, rank: nat, its: seq<Iteration>): (ticks: seq<Tick>)
    requires forall i :: 0 <= i < |its| ==> its[i].work.Some?
    ensures |ticks| == |its|
    ensures forall i :: 0 <= i < |its| ==> ticks[i] == TickOf(cfg, After(c, i), rank, its[i])
  {
    seq(|its|, i requires 0 <= i < |its| => TickOf(cfg, After(c, i), rank, its[i]))
  }

  ghost function TickOf(cfg: Config, c: Counters, rank: nat, it: Iteration): Tick
    requires it.work.Some?
  {
    Tick(it.now, Readings(c, it.others, rank), WorkBatch(cfg, it.work.value))
  }

  ghost predicate CleanIterations(cfg: Config, c: Counters, rank: nat, ids: seq<int>, its: seq<Iteration>) {
    && (forall i :: 0 <= i < |its| ==> CleanWork(its[i]))
    && Clean(cfg, ids, Ticks(cfg, c, rank, its))
  }

  /** The queued result completes with the count its batch was submitted with. */
  ghost predicate PaidOne(s: State, held: Held) {
    held.ticket.Some? ==>
      && held.ticket.value < |s.records|
      && (s.records[held.ticket.value].pureDecode ==> held.billed == Some(s.records[held.ticket.value].tokens))
  }

  ghost predicate Paid(s: State, queue: seq<Held>) {
    forall i :: 0 <= i < |queue| ==> PaidOne(s, queue[i])
  }

  /** `l` is the loop before iteration `j` of the stretch. */
  ghost predicate Going(cfg: Config, l: Loop, c: Counters, rank: nat, ids: seq<int>, its: seq<Iteration>, j: nat)
    requires forall i :: 0 <= i < |its| ==> its[i].work.Some?
  {
    && Sound(cfg, l) && Paid(l.window, l.queue) && |l.queue| == (if l.lastBatch then 1 else 0)
    && l.counters == After(c, j) && Along(l.window, ids, Ticks(cfg, c, rank, its), j)
  }

  /** Completing a paid result does not raise, and leaves the others paid and the window along the stretch. */
  lemma PaidProcess(cfg: Config, l: Loop, ids: seq<int>, ticks: seq<Tick>, j: nat)
    requires Sound(cfg, l) && l.queue != [] && Paid(l.window, l.queue) && Along(l.window, ids, ticks, j)
    ensures WellFormed(l.window)
    ensures ProcessHead(l).Ok? && Paid(ProcessHead(l).value.window, ProcessHead(l).value.queue)
    ensures Along(ProcessHead(l).value.window, ids, ticks, j)
  {
    var head := l.queue[0];
    ProcessSound(cfg, l);
    TicketsPop(l.queue);
    assert PaidOne(l.window, head);
    CompleteAlong(l.window, ids, ticks, j, head.ticket, head.billed);
    var m := ProcessHead(l).value;
    forall i | 0 <= i < |m.queue| ensures PaidOne(m.window, m.queue[i]) {
      assert m.queue[i] == l.queue[i + 1] && PaidOne(l.window, l.queue[i + 1]);
    }
  }

  lemma {:induction false} PaidDrain(cfg: Config, l: Loop, ids: seq<int>, ticks: seq<Tick>, j: nat)
    requires Sound(cfg, l) && Paid(l.window, l.queue) && Along(l.window, ids, ticks, j)
    ensures WellFormed(l.window)
    ensures DrainQueue(l).Ok? && Along(DrainQueue(l).value.window, ids, ticks, j)
    decreases |l.queue|
  {
    TracksWellFormed(cfg, l.events, l.window);
    if l.queue != [] {
      PaidProcess(cfg, l, ids, ticks, j);
      ProcessSound(cfg, l);
      PaidDrain(cfg, ProcessHead(l).value, ids, ticks, j);
    }
  }

  /** Choosing a batch: at an edge the queue is drained and the boundary accepted. */
  lemma ChooseAlong(cfg: Config, l: Loop, c: Counters, rank: nat, ids: seq<int>, its: seq<Iteration>, j: nat)
    requires CleanIterations(cfg, c, rank, ids, its) && j < |its| && Going(cfg, l, c, rank, ids, its, j)
    ensures WellFormed(l.window)
    ensures NextBatch(l, its[j], rank).Ok? && Going(cfg, NextBatch(l, its[j], rank).value, c, rank, ids, its, j)
  {
    var ticks := Ticks(cfg, c, rank, its);
    TracksWellFormed(cfg, l.events, l.window);
    if NeedsBoundary(l.window) {
      DrainSound(cfg, l);
      PaidDrain(cfg, l, ids, ticks, j);
      var m := DrainQueue(l).value;
      EdgeAlong(cfg, m.events, m.window, ids, ticks, j);
      NextBatchSound(cfg, l, its[j], rank);
      MeasureSound(cfg, m, its[j], rank);
    }
  }

  lemma PaidKept(s: State, t: State, queue: seq<Held>)
    requires Paid(s, queue) && |s.records| <= |t.records|
    requires forall i :: 0 <= i < |s.records| ==> t.records[i] == s.records[i]
    ensures Paid(t, queue)
  {
    forall i | 0 <= i < |queue| ensures PaidOne(t, queue[i]) {
      assert PaidOne(s, queue[i]);
    }
  }

  lemma SubmitKeepsRecords(s: State, b: Batch)
    requires SubmitStep(s, b).reply.Returned?
    ensures s.records <= SubmitStep(s, b).state.records
  {
  }

  /** Running the batch. */
  lemma RunAlong(cfg: Config, l: Loop, c: Counters, rank: nat, ids: seq<int>, its: seq<Iteration>, j: nat)
    requires CleanIterations(cfg, c, rank, ids, its) && j < |its| && Going(cfg, l, c, rank, ids, its, j)
    requires !NeedsBoundary(l.window)
    ensures WellFormed(l.window)
    ensures RunBatch(l, its[j].work.value).Ok?
    ensures var m := RunBatch(l, its[j].work.value).value;
            && Paid(m.window, m.queue) && m.counters == After(c, j + 1) && Along(m.window, ids, Ticks(cfg, c, rank, its), j + 1)
            && m.lastBatch == l.lastBatch && |m.queue| == |l.queue| + 1
  {
    var work, ticks := its[j].work.value, Ticks(cfg, c, rank, its);
    var batch := WorkBatch(cfg, work);
    TracksWellFormed(cfg, l.events, l.window);
    assert CleanWork(its[j]) && ticks[j].batch == batch;
    SubmitAlong(l.window, ids, ticks, j);
    CheckedSubmit(cfg, l.events, l.window, batch);
    var r := SubmitStep(l.window, batch);
    SubmitKeepsRecords(l.window, batch);
    PaidKept(l.window, r.state, l.queue);
  }

  /** One iteration of the stretch. */
  lemma TurnAlong(cfg: Config, l: Loop, c: Counters, rank: nat, ids: seq<int>, its: seq<Iteration>, j: nat)
    requires CleanIterations(cfg, c, rank, ids, its) && j < |its| && Going(cfg, l, c, rank, ids, its, j)
    ensures WellFormed(l.window)
    ensures Turn(l, its[j], rank).Ok? && Going(cfg, Turn(l, its[j], rank).value, c, rank, ids, its, j + 1)
  {
    assert CleanWork(its[j]);
    ChooseAlong(cfg, l, c, rank, ids, its, j);
    NextBatchSound(cfg, l, its[j], rank);
    var m := NextBatch(l, its[j], rank).value;
    RunAlong(cfg, m, c, rank, ids, its, j);
    RunSound(cfg, m, its[j].work.value);
    var n := RunBatch(m, its[j].work.value).value;
    if n.lastBatch {
      PaidProcess(cfg, n, ids, Ticks(cfg, c, rank, its), j + 1);
    }
    TurnSound(cfg, l, its[j], rank);
  }

  lemma {:induction false} TurnsAlong(cfg: Config, l: Loop, c: Counters, rank: nat, ids: seq<int>, its: seq<Iteration>, j: nat)
    requires CleanIterations(cfg, c, rank, ids, its) && j <= |its| && Going(cfg, l, c, rank, ids, its, 0)
    ensures WellFormed(l.window)
    ensures Turns(l, its[..j], rank).Ok? && Going(cfg, Turns(l, its[..j], rank).value, c, rank, ids, its, j)
  {
    TracksWellFormed(cfg, l.events, l.window);
    if j > 0 {
      TurnsAlong(cfg, l, c, rank, ids, its, j - 1);
      TurnAlong(cfg, Turns(l, its[..j - 1], rank).value, c, rank, ids, its, j - 1);
      TurnsSnoc(l, its, j - 1, rank);
    }
  }

  /** A clean stretch as long as the warmup and the measurement together, and the reading of an iteration after it. */
  ghost predicate CleanRun(cfg: Config, c: Counters, rank: nat, ids: seq<int>, its: seq<Iteration>, last: Iteration) {
    && CleanIterations(cfg, c, rank, ids, its) && |its| == cfg.warmupSteps + cfg.targetSteps >= 1
    && Follows(Ticks(cfg, c, rank, its)[|its| - 1], last.now, Readings(After(c, |its|), last.others, rank))
  }

  /** The stretch and the choice of one more batch leave the window with a result. */
  ghost predicate Measures(l: Loop, its: seq<Iteration>, last: Iteration, rank: nat)
    requires WellFormed(l.window)
  {
    && Turns(l, its, rank).Ok? && NextBatch(Turns(l, its, rank).value, last, rank).Ok?
    && NextBatch(Turns(l, its, rank).value, last, rank).value.window.result.Some?
  }

  lemma LastChoice(cfg: Config, l: Loop, c: Counters, rank: nat, ids: seq<int>, its: seq<Iteration>, last: Iteration)
    requires CleanRun(cfg, c, rank, ids, its, last) && Going(cfg, l, c, rank, ids, its, |its|)
    ensures WellFormed(l.window)
    ensures NextBatch(l, last, rank).Ok? && NextBatch(l, last, rank).value.window.result.Some?
  {
    var ticks, readings := Ticks(cfg, c, rank, its), Readings(l.counters, last.others, rank);
    DrainSound(cfg, l);
    if NeedsBoundary(l.window) {
      PaidDrain(cfg, l, ids, ticks, |its|);
      var d := DrainQueue(l).value;
      StretchCloses(cfg, d.events, d.window, ids, ticks, last.now, readings);
    } else {
      StretchCloses(cfg, l.events, l.window, ids, ticks, last.now, readings);
    }
  }

  lemma StretchSucceeds(cfg: Config, l: Loop, rank: nat, ids: seq<int>, its: seq<Iteration>, last: Iteration)
    requires Sound(cfg, l) && |l.queue| == (if l.lastBatch then 1 else 0) && Paid(l.window, l.queue)
    requires l.window.started == None && CleanRun(cfg, l.counters, rank, ids, its, last) && !WarmForOthers(l.window, ids)
    ensures WellFormed(l.window) && Measures(l, its, last, rank)
  {
    var ticks := Ticks(cfg, l.counters, rank, its);
    AlongStart(cfg, l.events, l.window, ids, ticks);
    TurnsAlong(cfg, l, l.counters, rank, ids, its, |its|);
    assert its[..|its|] == its;
    LastChoice(cfg, Turns(l, its, rank).value, l.counters, rank, ids, its, last);
  }

  lemma OthersMeetTurnover(cfg: Config, l: Loop, rank: nat, ids: seq<int>, its: seq<Iteration>)
    requires Sound(cfg, l) && l.window.started == None && WarmForOthers(l.window, ids)
    requires its != [] && CleanIterations(cfg, l.counters, rank, ids, its)
    ensures WellFormed(l.window) && Turns(l, its, rank).Err?
  {
    var it := its[0];
    DrainSound(cfg, l);
    assert CleanWork(it) && Ticks(cfg, l.counters, rank, its)[0].batch == WorkBatch(cfg, it.work.value);
    assert CleanBatch(cfg, ids, Ticks(cfg, l.counters, rank, its)[0].batch);
    Unopened(cfg, l.events, l.window);
    if DrainQueue(l).Ok? {
      var d := DrainQueue(l).value;
      WrongRequests(cfg, d.events, d.window, ids, it.now, Readings(d.counters, it.others, rank), WorkBatch(cfg, it.work.value));
    }
    assert its[..0] == [];
    TurnsSnoc(l, its, 0, rank);
    TurnsStop(l, its, 1, rank);
  }

  lemma UnpaidHead(cfg: Config, l: Loop)
    requires Sound(cfg, l) && l.queue != [] && !PaidOne(l.window, l.queue[0])
    ensures WellFormed(l.window) && ProcessHead(l).Err?
  {
    TracksWellFormed(cfg, l.events, l.window);
    TicketsPop(l.queue);
  }

  lemma UnpaidStays(s: State, t: State, held: Held)
    requires !PaidOne(s, held) && (held.ticket.Some? ==> held.ticket.value < |s.records|) && s.records <= t.records
    ensures !PaidOne(t, held)
  {
    assert held.ticket.Some? ==> t.records[held.ticket.value] == s.records[held.ticket.value];
  }

  /** An unpaid result that waits makes the next iteration raise, whatever it brings. */
  lemma UnpaidRaises(cfg: Config, l: Loop, it: Iteration, rank: nat)
    requires Sound(cfg, l) && |l.queue| == (if l.lastBatch then 1 else 0) && !Paid(l.window, l.queue)
    ensures WellFormed(l.window) && Turn(l, it, rank).Err?
  {
    TracksWellFormed(cfg, l.events, l.window);
    assert !PaidOne(l.window, l.queue[0]);
    UnpaidHead(cfg, l);
    TicketsPop(l.queue);
    if !NeedsBoundary(l.window) && it.work.Some? && RunBatch(l, it.work.value).Ok? {
      var m := RunBatch(l, it.work.value).value;
      RunSound(cfg, l, it.work.value);
      SubmitKeepsRecords(l.window, WorkBatch(l.window.cfg, it.work.value));
      UnpaidStays(l.window, m.window, l.queue[0]);
      UnpaidHead(cfg, m);
    }
  }

  lemma UnpaidStops(cfg: Config, l: Loop, its: seq<Iteration>, rank: nat)
    requires Sound(cfg, l) && |l.queue| == (if l.lastBatch then 1 else 0) && !Paid(l.window, l.queue) && its != []
    ensures WellFormed(l.window) && Turns(l, its, rank).Err?
  {
    UnpaidRaises(cfg, l, its[0], rank);
    assert its[..0] == [];
    TurnsSnoc(l, its, 0, rank);
    TurnsStop(l, its, 1, rank);
  }

  /**
   From every sound state of the loop before the opening edge, a clean run gives a result if and only if the waiting
   result is paid and the window is not warm for other requests.
   */
  lemma StretchMeasured(cfg: Config, l: Loop, rank: nat, ids: seq<int>, its: seq<Iteration>, last: Iteration)
    requires Sound(cfg, l) && |l.queue| == (if l.lastBatch then 1 else 0)
    requires l.window.started == None && CleanRun(cfg, l.counters, rank, ids, its, last)
    ensures WellFormed(l.window)
    ensures Measures(l, its, last, rank) <==> Paid(l.window, l.queue) && !WarmForOthers(l.window, ids)
  {
    TracksWellFormed(cfg, l.events, l.window);
    if !Paid(l.window, l.queue) {
      UnpaidStops(cfg, l, its, rank);
    } else if WarmForOthers(l.window, ids) {
      OthersMeetTurnover(cfg, l, rank, ids, its);
    } else {
      StretchSucceeds(cfg, l, rank, ids, its, last);
    }
  }

  lemma {:induction false} TurnsConcat(l: Loop, one: seq<Iteration>, two: seq<Iteration>, rank: nat)
    requires WellFormed(l.window)
    ensures var r := Turns(l, one, rank);
            Turns(l, one + two, rank) == if r.Err? then r else Turns(r.value, two, rank)
  {
    if two == [] {
      assert one + two == one;
    } else {
      var front := two[..|two| - 1];
      assert (one + two)[..|one + two| - 1] == one + front;
      TurnsConcat(l, one, front, rank);
    }
  }

  /**
   The overlapping loop from its start: whatever it did before, as long as nothing raised and the window has not opened,
   a clean run gives a result if and only if the waiting result is paid and the window is not warm for other requests.
   */
  lemma LoopMeasures(cfg: Config, before: seq<Iteration>, rank: nat, ids: seq<int>, its: seq<Iteration>, last: Iteration)
    requires ValidConfig(cfg) && Turns(StartLoop(cfg), before, rank).Ok?
    requires var l := Turns(StartLoop(cfg), before, rank).value;
             l.window.started == None && CleanRun(cfg, l.counters, rank, ids, its, last)
    ensures Measures(StartLoop(cfg), before + its, last, rank) <==>
            var l := Turns(StartLoop(cfg), before, rank).value; Paid(l.window, l.queue) && !WarmForOthers(l.window, ids)
  {
    StartSound(cfg);
    TurnsSound(cfg, StartLoop(cfg), before, rank);
    TurnsConcat(StartLoop(cfg), before, its, rank);
    StretchMeasured(cfg, Turns(StartLoop(cfg), before, rank).value, rank, ids, its, last);
  }
}
