/**
 The drain adapter of benchmark/hisparse_microbench.py around an overlapping scheduler, on any one rank.

 The scheduler loop picks a batch, runs it, appends the result to `queue` and processes the previous
 result. The adapter wraps the three calls: it issues a ticket when a batch runs, completes it when
 the result is processed, and drains the queue before a measurement edge. Results are identified by
 a handle (Python's id()), which may be used again once a result is gone. The counters of the other
 ranks, gathered at an edge, are part of the script.

 The loop as a function of the script comes first, then the adapter object, which computes it.
 */
module QueueAdapter {
  import opened Wrappers
  import opened DecodeWindow
  import opened DecodeWindowObject

  /** A batch as the scheduler presents it, and what running and processing it will do. */
  datatype Work = Work(
    handle: nat, pure: bool, ids: seq<int>, contexts: seq<int>, extendTokens: int, preemptions: int,
    captures: nat, onGraph: bool, published: int)

  /** One iteration of the scheduler loop: the clock and the other ranks' counters at an edge, and the batch if one is ready. */
  datatype Iteration = Iteration(now: real, others: seq<Counters>, work: Option<Work>)

  datatype AdapterError = OfWindow(error: Error) | UnknownResult | EmptyQueue

  /** A result in the queue: its ticket, and the count its completion will report. */
  datatype Held = Held(handle: nat, ticket: Option<nat>, billed: Option<int>)

  /** The loop's state, with logs of the batches run, the results processed and the calls made to the window. */
  datatype Loop = Loop(
    window: State, counters: Counters, queue: seq<Held>, lastBatch: bool,
    ran: seq<nat>, processed: seq<nat>, events: seq<Event>)

  function WorkBatch(cfg: Config, work: Work): Batch {
    Batch(work.pure, work.ids, if work.pure then |work.ids| else work.extendTokens,
          work.pure && |work.ids| == cfg.concurrency, work.contexts, 0)
  }

  function Billed(work: Work): Option<int> { if work.pure then Some(work.published) else None }

  function AfterRun(c: Counters, work: Work): Counters {
    Counters(c.capture + work.captures,
             if work.pure && work.onGraph then c.replay + 1 else c.replay,
             if work.pure && !work.onGraph then c.eager + 1 else c.eager)
  }

  /** all_gather_object: every rank's counters, this rank's at its place. */
  function Readings(c: Counters, others: seq<Counters>, rank: nat): GraphStats {
    if rank <= |others| then Ranks(others[..rank] + [c] + others[rank..]) else Ranks([c])
  }

  // ----- the loop as a function

  /** popleft and the wrapped process_batch_result. */
  function ProcessHead(l: Loop): (r: Result<Loop, AdapterError>)
    requires WellFormed(l.window) && l.queue != []
    ensures r.Ok? ==> WellFormed(r.value.window)
  {
    var head := l.queue[0];
    var done := Complete(head.ticket, head.billed);
    var r := Step(l.window, done);
    if r.reply.Raised? then Err(OfWindow(r.reply.error))
    else Ok(l.(window := r.state, queue := l.queue[1..], processed := l.processed + [head.handle], events := l.events + [done]))
  }

  function DrainQueue(l: Loop): (r: Result<Loop, AdapterError>)
    requires WellFormed(l.window)
    ensures r.Ok? ==> WellFormed(r.value.window)
    decreases |l.queue|
  {
    if l.queue == [] then Ok(l)
    else
      match ProcessHead(l)
      case Err(e) => Err(e)
      case Ok(m) => DrainQueue(m)
  }

  /** The edge itself: the window's boundary on the gathered counters. */
  function MeasureEdge(l: Loop, it: Iteration, rank: nat): (r: Result<Loop, AdapterError>)
    requires WellFormed(l.window)
    ensures r.Ok? ==> WellFormed(r.value.window)
  {
    var edge := Boundary(it.now, Readings(l.counters, it.others, rank));
    var r := Step(l.window, edge);
    if r.reply.Raised? then Err(OfWindow(r.reply.error))
    else Ok(l.(window := r.state, lastBatch := false, events := l.events + [edge]))
  }

  /** The wrapped get_next_batch_to_run. */
  function NextBatch(l: Loop, it: Iteration, rank: nat): (r: Result<Loop, AdapterError>)
    requires WellFormed(l.window)
    ensures r.Ok? ==> WellFormed(r.value.window)
  {
    if !NeedsBoundary(l.window) then Ok(l)
    else
      match DrainQueue(l)
      case Err(e) => Err(e)
      case Ok(m) => MeasureEdge(m, it, rank)
  }

  /** The wrapped run_batch, and the scheduler's append of the result. */
  function RunBatch(l: Loop, work: Work): (r: Result<Loop, AdapterError>)
    requires WellFormed(l.window)
    ensures r.Ok? ==> WellFormed(r.value.window)
  {
    var submit := Submit(WorkBatch(l.window.cfg, work));
    var r := Step(l.window, submit);
    if work.preemptions != 0 then Err(OfWindow(Preemption))
    else if r.reply.Raised? then Err(OfWindow(r.reply.error))
    else Ok(l.(window := r.state, counters := AfterRun(l.counters, work),
               queue := l.queue + [Held(work.handle, r.reply.ticket, Billed(work))],
               ran := l.ran + [work.handle], events := l.events + [submit]))
  }

  /** The first half of an iteration: choose a batch, run it and enqueue its result. */
  function ChooseAndRun(l: Loop, it: Iteration, rank: nat): (r: Result<Loop, AdapterError>)
    requires WellFormed(l.window)
    ensures r.Ok? ==> WellFormed(r.value.window)
  {
    match NextBatch(l, it, rank)
    case Err(e) => Err(e)
    case Ok(m) => if it.work.Some? then RunBatch(m, it.work.value) else Ok(m)
  }

  /** popleft of the scheduler loop when a previous batch is waiting. */
  function ProcessPrevious(l: Loop): (r: Result<Loop, AdapterError>)
    requires WellFormed(l.window)
    ensures r.Ok? ==> WellFormed(r.value.window)
  {
    if !l.lastBatch then Ok(l) else if l.queue == [] then Err(EmptyQueue) else ProcessHead(l)
  }

  /** One iteration of the overlapping loop. */
  function Turn(l: Loop, it: Iteration, rank: nat): (r: Result<Loop, AdapterError>)
    requires WellFormed(l.window)
    ensures r.Ok? ==> WellFormed(r.value.window)
  {
    match ChooseAndRun(l, it, rank)
    case Err(e) => Err(e)
    case Ok(m) =>
      match ProcessPrevious(m)
      case Err(e) => Err(e)
      case Ok(n) => Ok(n.(lastBatch := it.work.Some?))
  }

  function Turns(l: Loop, script: seq<Iteration>, rank: nat): (r: Result<Loop, AdapterError>)
    requires WellFormed(l.window)
    ensures r.Ok? ==> WellFormed(r.value.window)
  {
    if script == [] then Ok(l)
    else
      match Turns(l, script[..|script| - 1], rank)
      case Err(e) => Err(e)
      case Ok(m) => Turn(m, script[|script| - 1], rank)
  }

  /** All iterations, and what is left in the queue at the end. */
  function WholeLoop(l: Loop, script: seq<Iteration>, rank: nat): Result<Loop, AdapterError>
    requires WellFormed(l.window)
  {
    match Turns(l, script, rank)
    case Err(e) => Err(e)
    case Ok(m) => DrainQueue(m)
  }

  function StartLoop(cfg: Config): Loop { Loop(Init(cfg), Counters(0, 0, 0), [], false, [], [], []) }

  lemma TurnsSnoc(l: Loop, script: seq<Iteration>, n: nat, rank: nat)
    requires WellFormed(l.window) && n < |script|
    ensures var r := Turns(l, script[..n], rank);
            Turns(l, script[..n + 1], rank) == if r.Err? then r else Turn(r.value, script[n], rank)
  {
    assert script[..n + 1][..n] == script[..n];
  }

  lemma {:induction false} TurnsStop(l: Loop, script: seq<Iteration>, n: nat, rank: nat)
    requires WellFormed(l.window) && n <= |script| && Turns(l, script[..n], rank).Err?
    ensures Turns(l, script, rank) == Turns(l, script[..n], rank)
  {
    if n < |script| {
      assert script[..|script| - 1][..n] == script[..n];
      TurnsStop(l, script[..|script| - 1], n, rank);
    } else {
      assert script[..n] == script;
    }
  }

  // ----- one result waits between iterations

  function WorkCount(it: Iteration): nat { if it.work.Some? then 1 else 0 }

  /** A new result's handle differs from the one still waiting. */
  ghost predicate HandlesDiffer(script: seq<Iteration>) {
    forall i :: 0 < i < |script| && script[i - 1].work.Some? && script[i].work.Some? ==>
      script[i - 1].work.value.handle != script[i].work.value.handle
  }

  /** Between iterations the queue holds the last batch's result, if there was one. */
  ghost predicate Waits(l: Loop, script: seq<Iteration>, n: nat)
    requires n <= |script|
  {
    && (n == 0 ==> !l.lastBatch && l.queue == [])
    && (n > 0 ==> l.lastBatch == script[n - 1].work.Some? && |l.queue| == WorkCount(script[n - 1])
                  && (l.lastBatch ==> l.queue[0].handle == script[n - 1].work.value.handle))
  }

  lemma {:induction false} DrainedEmpty(l: Loop)
    requires WellFormed(l.window) && DrainQueue(l).Ok?
    ensures DrainQueue(l).value.queue == []
    decreases |l.queue|
  {
    if l.queue != [] {
      DrainedEmpty(ProcessHead(l).value);
    }
  }

  /** Choosing leaves the queue alone, or empties it together with the last batch. */
  lemma NextBatchQueue(l: Loop, it: Iteration, rank: nat)
    requires WellFormed(l.window) && NextBatch(l, it, rank).Ok?
    ensures var m := NextBatch(l, it, rank).value;
            (m.queue == l.queue && m.lastBatch == l.lastBatch) || (m.queue == [] && !m.lastBatch)
  {
    if NeedsBoundary(l.window) {
      DrainedEmpty(l);
    }
  }

  lemma TurnWaits(l: Loop, it: Iteration, rank: nat)
    requires WellFormed(l.window) && |l.queue| == (if l.lastBatch then 1 else 0) && Turn(l, it, rank).Ok?
    ensures var m := Turn(l, it, rank).value;
            && m.lastBatch == it.work.Some? && |m.queue| == WorkCount(it)
            && (m.lastBatch ==> m.queue[0].handle == it.work.value.handle)
  {
    NextBatchQueue(l, it, rank);
  }

  lemma TurnsWait(l: Loop, script: seq<Iteration>, n: nat, rank: nat)
    requires WellFormed(l.window) && !l.lastBatch && l.queue == [] && n <= |script| && Turns(l, script[..n], rank).Ok?
    ensures Waits(Turns(l, script[..n], rank).value, script, n)
  {
    if n > 0 {
      TurnsSnoc(l, script, n - 1, rank);
      TurnsWait(l, script, n - 1, rank);
      TurnWaits(Turns(l, script[..n - 1], rank).value, script[n - 1], rank);
    }
  }

  // ----- tickets by handle

  ghost function Handles(queue: seq<Work>): set<nat> { set i | 0 <= i < |queue| :: queue[i].handle }

  /** The tickets are keyed by exactly the queued results, which are all different. */
  ghost predicate Keyed(tickets: map<nat, (Option<nat>, bool)>, queue: seq<Work>) {
    && tickets.Keys == Handles(queue)
    && (forall i :: 0 <= i < |queue| ==> tickets[queue[i].handle].1 == queue[i].pure)
    && (forall i, j :: 0 <= i < j < |queue| ==> queue[i].handle != queue[j].handle)
  }

  ghost function HeldOf(tickets: map<nat, (Option<nat>, bool)>, work: Work): Held {
    Held(work.handle, if work.handle in tickets then tickets[work.handle].0 else None, Billed(work))
  }

  ghost function HeldSeq(tickets: map<nat, (Option<nat>, bool)>, queue: seq<Work>): (held: seq<Held>)
    ensures |held| == |queue|
  {
    seq(|queue|, i requires 0 <= i < |queue| => HeldOf(tickets, queue[i]))
  }

  lemma KeyedPop(tickets: map<nat, (Option<nat>, bool)>, queue: seq<Work>)
    requires Keyed(tickets, queue) && queue != []
    ensures queue[0].handle in tickets
    ensures Keyed(tickets - {queue[0].handle}, queue[1..])
    ensures HeldSeq(tickets - {queue[0].handle}, queue[1..]) == HeldSeq(tickets, queue)[1..]
  {
    var h, rest := queue[0].handle, queue[1..];
    assert h in Handles(queue);
    assert forall i :: 0 <= i < |rest| ==> rest[i] == queue[i + 1];
    forall k | k in Handles(queue) && k != h ensures k in Handles(rest) {
      var i :| 0 <= i < |queue| && queue[i].handle == k;
      assert rest[i - 1].handle == k;
    }
    assert Handles(rest) == Handles(queue) - {h};
  }

  lemma KeyedPush(tickets: map<nat, (Option<nat>, bool)>, queue: seq<Work>, work: Work, ticket: Option<nat>)
    requires Keyed(tickets, queue) && work.handle !in Handles(queue)
    ensures Keyed(tickets[work.handle := (ticket, work.pure)], queue + [work])
    ensures HeldSeq(tickets[work.handle := (ticket, work.pure)], queue + [work])
            == HeldSeq(tickets, queue) + [Held(work.handle, ticket, Billed(work))]
  {
    var longer, after := queue + [work], tickets[work.handle := (ticket, work.pure)];
    assert longer[|queue|] == work;
    forall k | k in Handles(queue) ensures k in Handles(longer) {
      var i :| 0 <= i < |queue| && queue[i].handle == k;
      assert longer[i].handle == k;
    }
    assert Handles(longer) == Handles(queue) + {work.handle};
    forall i | 0 <= i < |queue| ensures queue[i].handle != work.handle && longer[i] == queue[i] {
      assert queue[i].handle in Handles(queue);
    }
  }

  // ----- the adapter

  class Adapter {
    const window: PipelinedDecodeWindow
    const rank: nat
    var tickets: map<nat, (Option<nat>, bool)>
    var queue: seq<Work>
    var lastBatch: bool
    var counters: Counters
    ghost var ran: seq<nat>
    ghost var processed: seq<nat>
    ghost var events: seq<Event>

    ghost predicate Valid()
      reads this, window, window.rows
    {
      window.Valid() && Keyed(tickets, queue)
    }

    ghost function View(): Loop
      reads this, window
    {
      Loop(window.View(), counters, HeldSeq(tickets, queue), lastBatch, ran, processed, events)
    }

    constructor (w: PipelinedDecodeWindow, rank: nat)
      requires w.Valid() && w.View() == Init(w.cfg)
      ensures Valid() && window == w && this.rank == rank && View() == StartLoop(w.cfg)
    {
      window, this.rank := w, rank;
      tickets, queue, lastBatch, counters := map[], [], false, Counters(0, 0, 0);
      ran, processed, events := [], [], [];
    }

    /** popleft and the lookup of the result's ticket. */
    method PopHead() returns (error: Option<AdapterError>, handle: nat, ticket: Option<nat>, billed: Option<int>)
      requires Keyed(tickets, queue) && queue != []
      modifies this`tickets, this`queue
      ensures error == None && Keyed(tickets, queue) && queue == old(queue)[1..]
      ensures HeldSeq(tickets, queue) == old(HeldSeq(tickets, queue))[1..]
      ensures Held(handle, ticket, billed) == old(HeldSeq(tickets, queue))[0]
    {
      var work := queue[0];
      handle := work.handle;
      KeyedPop(tickets, queue);
      if handle !in tickets {
        return Some(UnknownResult), handle, None, None;
      }
      ticket := tickets[handle].0;
      billed := if tickets[handle].1 then Some(work.published) else None;
      tickets, queue, error := tickets - {handle}, queue[1..], None;
    }

    /** popleft, then the wrapped process_batch_result. */
    method ProcessHeadResult() returns (error: Option<AdapterError>)
      requires Valid() && queue != []
      modifies this`tickets, this`queue, this`processed, this`events, window, window.rows
      ensures window.rows == old(window.rows) && WellFormed(old(window.View()))
      ensures error == None ==> Valid() && queue == old(queue)[1..]
      ensures ProcessHead(old(View())) == if error == None then Ok(View()) else Err(error.value)
    {
      WindowWellFormed();
      var handle, ticket, billed;
      error, handle, ticket, billed := PopHead();
      if error == None {
        error := Finish(handle, ticket, billed);
      }
    }

    /** The completion of a result that left the queue. */
    method Finish(handle: nat, ticket: Option<nat>, billed: Option<int>) returns (error: Option<AdapterError>)
      requires Valid()
      modifies this`processed, this`events, window, window.rows
      ensures window.rows == old(window.rows) && WellFormed(old(window.View()))
      ensures var r := CompleteStep(old(window.View()), ticket, billed);
              if r.reply.Raised? then error == Some(OfWindow(r.reply.error))
              else error == None && Valid() && window.View() == r.state
      ensures error == None ==>
                processed == old(processed) + [handle] && events == old(events) + [Complete(ticket, billed)]
    {
      var reply := window.Complete(ticket, billed);
      processed, events := processed + [handle], events + [Complete(ticket, billed)];
      error := if reply.Raised? then Some(OfWindow(reply.error)) else None;
    }

    /** The drain loop of the wrapped get_next_batch_to_run. */
    method Drain() returns (error: Option<AdapterError>)
      requires Valid()
      modifies this`tickets, this`queue, this`processed, this`events, window, window.rows
      ensures window.rows == old(window.rows) && WellFormed(old(window.View()))
      ensures error == None ==> Valid() && queue == []
      ensures DrainQueue(old(View())) == if error == None then Ok(View()) else Err(error.value)
    {
      error := None;
      while queue != []
        invariant error == None && Valid() && window.rows == old(window.rows)
        invariant WellFormed(window.View()) && WellFormed(old(window.View()))
        invariant DrainQueue(View()) == DrainQueue(old(View()))
        decreases |queue|
      {
        error := ProcessHeadResult();
        if error.Some? {
          return;
        }
      }
    }

    /** The boundary at an edge. */
    method Measure(it: Iteration) returns (error: Option<AdapterError>)
      requires Valid()
      modifies this`lastBatch, this`events, window
      ensures window.rows == old(window.rows) && WellFormed(old(window.View()))
      ensures error == None ==> Valid()
      ensures MeasureEdge(old(View()), it, rank) == if error == None then Ok(View()) else Err(error.value)
    {
      lastBatch := false;
      var readings := Readings(counters, it.others, rank);
      var reply := window.Boundary(it.now, readings);
      events := events + [Boundary(it.now, readings)];
      error := if reply.Raised? then Some(OfWindow(reply.error)) else None;
    }

    /** The wrapped get_next_batch_to_run. */
    method ChooseBatch(it: Iteration) returns (error: Option<AdapterError>)
      requires Valid()
      modifies this`tickets, this`queue, this`processed, this`events, this`lastBatch, window, window.rows
      ensures window.rows == old(window.rows) && WellFormed(old(window.View()))
      ensures error == None ==> Valid() && (queue == old(queue) || queue == [])
      ensures NextBatch(old(View()), it, rank) == if error == None then Ok(View()) else Err(error.value)
    {
      error := None;
      if window.NeedsEdge() {
        error := Drain();
        if error == None {
          error := Measure(it);
        }
      }
    }

    /** The bookkeeping of a run: its ticket under the result's handle, the result on the queue. */
    method Enqueue(work: Work, ticket: Option<nat>)
      requires Keyed(tickets, queue) && work.handle !in Handles(queue)
      modifies this`tickets, this`queue, this`ran
      ensures Keyed(tickets, queue) && queue == old(queue) + [work] && ran == old(ran) + [work.handle]
      ensures HeldSeq(tickets, queue) == old(HeldSeq(tickets, queue)) + [Held(work.handle, ticket, Billed(work))]
    {
      KeyedPush(tickets, queue, work, ticket);
      tickets := tickets[work.handle := (ticket, work.pure)];
      queue, ran := queue + [work], ran + [work.handle];
    }

    /** The wrapped run_batch, and the scheduler's append of the result. */
    method Run(work: Work) returns (error: Option<AdapterError>)
      requires Valid() && work.handle !in Handles(queue)
      modifies this`tickets, this`queue, this`events, this`counters, this`ran, window
      ensures fresh(window.rows - old(window.rows)) && WellFormed(old(window.View()))
      ensures error == None ==> Valid() && queue == old(queue) + [work]
      ensures RunBatch(old(View()), work) == if error == None then Ok(View()) else Err(error.value)
    {
      if work.preemptions != 0 {
        WindowWellFormed();
        return Some(OfWindow(Preemption));
      }
      var batch := WorkBatch(window.cfg, work);
      var reply := window.Submit(batch);
      events := events + [Submit(batch)];
      if reply.Raised? {
        return Some(OfWindow(reply.error));
      }
      counters := AfterRun(counters, work);
      Enqueue(work, reply.ticket);
      error := None;
    }

    lemma WindowWellFormed()
      requires window.Valid()
      ensures WellFormed(window.View())
    {
    }

    /** The first half of an iteration. */
    method ChooseAndRunBatch(it: Iteration) returns (error: Option<AdapterError>)
      requires Valid() && (it.work.Some? ==> it.work.value.handle !in Handles(queue))
      modifies this`tickets, this`queue, this`processed, this`events, this`lastBatch, this`counters, this`ran
      modifies window, window.rows
      ensures fresh(window.rows - old(window.rows)) && WellFormed(old(window.View()))
      ensures error == None ==> Valid()
      ensures ChooseAndRun(old(View()), it, rank) == if error == None then Ok(View()) else Err(error.value)
    {
      error := ChooseBatch(it);
      if error == None && it.work.Some? {
        error := Run(it.work.value);
      }
    }

    /** The second half: the previous result, if one is waiting. */
    method ProcessLast() returns (error: Option<AdapterError>)
      requires Valid()
      modifies this`tickets, this`queue, this`processed, this`events, window, window.rows
      ensures window.rows == old(window.rows) && WellFormed(old(window.View()))
      ensures error == None ==> Valid()
      ensures ProcessPrevious(old(View())) == if error == None then Ok(View()) else Err(error.value)
    {
      WindowWellFormed();
      error := None;
      if lastBatch {
        if queue == [] {
          return Some(EmptyQueue);
        }
        error := ProcessHeadResult();
      }
    }

    /** One iteration of the overlapping loop: choose, run and enqueue, then process the previous result. */
    method Iterate(it: Iteration) returns (error: Option<AdapterError>)
      requires Valid() && (it.work.Some? ==> it.work.value.handle !in Handles(queue))
      modifies this`tickets, this`queue, this`processed, this`events, this`lastBatch, this`counters, this`ran
      modifies window, window.rows
      ensures fresh(window.rows - old(window.rows)) && WellFormed(old(window.View()))
      ensures error == None ==> Valid()
      ensures Turn(old(View()), it, rank) == if error == None then Ok(View()) else Err(error.value)
    {
      error := ChooseAndRunBatch(it);
      if error == None {
        error := ProcessLast();
        lastBatch := it.work.Some?;
      }
    }

    /** Iteration `i` of a script, after all before it. */
    method IterateAt(script: seq<Iteration>, i: nat) returns (error: Option<AdapterError>)
      requires Valid() && ValidConfig(window.cfg) && i < |script| && HandlesDiffer(script)
      requires Turns(StartLoop(window.cfg), script[..i], rank) == Ok(View())
      modifies this`tickets, this`queue, this`processed, this`events, this`lastBatch, this`counters, this`ran
      modifies window, window.rows
      ensures fresh(window.rows - old(window.rows))
      ensures error == None ==> Valid()
      ensures Turns(StartLoop(window.cfg), script[..i + 1], rank) == if error == None then Ok(View()) else Err(error.value)
    {
      TurnsSnoc(StartLoop(window.cfg), script, i, rank);
      TurnsWait(StartLoop(window.cfg), script, i, rank);
      WaitingHandle(script, i);
      error := Iterate(script[i]);
    }

    lemma WaitingHandle(script: seq<Iteration>, i: nat)
      requires i < |script| && HandlesDiffer(script) && Waits(View(), script, i)
      ensures script[i].work.Some? ==> script[i].work.value.handle !in Handles(queue)
    {
      if queue != [] {
        assert HeldSeq(tickets, queue)[0].handle == queue[0].handle;
      }
    }

    /** The whole loop, from a new window. A result's handle must differ from the one still waiting in the queue. */
    method EventLoop(script: seq<Iteration>) returns (error: Option<AdapterError>)
      requires Valid() && View() == StartLoop(window.cfg) && window.rows == {} && HandlesDiffer(script)
      modifies this, window
      ensures ValidConfig(window.cfg)
      ensures error == None ==> Valid()
      ensures WholeLoop(StartLoop(window.cfg), script, rank) == if error == None then Ok(View()) else Err(error.value)
    {
      error := None;
      var i := 0;
      while i < |script|
        invariant 0 <= i <= |script| && error == None && Valid()
        invariant Turns(StartLoop(window.cfg), script[..i], rank) == Ok(View())
        invariant fresh(window.rows)
      {
        error := IterateAt(script, i);
        if error.Some? {
          TurnsStop(StartLoop(window.cfg), script, i + 1, rank);
          return;
        }
        i := i + 1;
      }
      assert script[..i] == script;
      error := Drain();
    }
  }
}
