/**
 The overlapping loop is a serial loop. Whatever the scheduler does, what the loop does to the window is what a serial
 driver does with the same batches, each with the readings of the first iteration after the batch before it: one
 raises nothing exactly when the other does, and they end with the same window.

 The readings are stated over the script: this rank's counters are counts of the batches that ran before.
 */
module OverlappedSerial {
  import opened Wrappers
  import opened DecodeWindow
  import opened DecodeWindowCalls
  import opened SerialDriver
  import opened QueueAdapter
  import opened OverlappedRuns
  import opened OverlappedStretch

  // ----- the script as a list of feeds

  /** How many of the batches satisfy `p`. */
  ghost function Count(script: seq<Iteration>, p: Work -> bool): nat {
    if script == [] then 0
    else
      var last := script[|script| - 1];
      Count(script[..|script| - 1], p) + (if last.work.Some? && p(last.work.value) then 1 else 0)
  }

  /** The graph captures during the batches. */
  ghost function Captures(script: seq<Iteration>): nat {
    if script == [] then 0
    else
      var last := script[|script| - 1];
      Captures(script[..|script| - 1]) + (if last.work.Some? then last.work.value.captures else 0)
  }

  /** This rank's counters after a script: its captures, its decode batches on the graph and off it. */
  ghost function CountersOf(script: seq<Iteration>): Counters {
    Counters(Captures(script), Count(script, (w: Work) => w.pure && w.onGraph), Count(script, (w: Work) => w.pure && !w.onGraph))
  }

  /** What iteration `n` would gather. */
  ghost function Gathered(script: seq<Iteration>, n: nat, rank: nat): GraphStats
    requires n < |script|
  {
    Readings(CountersOf(script[..n]), script[n].others, rank)
  }

  /** The first iteration after the last batch before `n`. */
  ghost function EdgeAt(script: seq<Iteration>, n: nat): (e: nat)
    requires n <= |script|
    ensures e <= n
  {
    if n == 0 || script[n - 1].work.Some? then n else EdgeAt(script, n - 1)
  }

  /** The batch of iteration `n` as a serial driver meets it. */
  ghost function FeedAt(cfg: Config, script: seq<Iteration>, n: nat, rank: nat): Feed
    requires n < |script| && script[n].work.Some?
  {
    var work, e := script[n].work.value, EdgeAt(script, n);
    Feed(script[e].now, Gathered(script, e, rank), WorkBatch(cfg, work), work.published, work.preemptions != 0)
  }

  ghost function FeedsOf(cfg: Config, script: seq<Iteration>, n: nat, rank: nat): seq<Feed>
    requires n <= |script|
  {
    if n == 0 then []
    else FeedsOf(cfg, script, n - 1, rank) + (if script[n - 1].work.Some? then [FeedAt(cfg, script, n - 1, rank)] else [])
  }

  /** The serial window before iteration `n`: the boundary of the next batch is read as soon as there is an iteration for it. */
  ghost function SerialAt(cfg: Config, script: seq<Iteration>, n: nat, rank: nat): (r: Result<State, Error>)
    requires ValidConfig(cfg) && n <= |script|
    ensures r.Ok? ==> WellFormed(r.value)
  {
    match DriveAll(Init(cfg), FeedsOf(cfg, script, n, rank))
    case Err(e) => Err(e)
    case Ok(s) =>
      var e := EdgeAt(script, n);
      if e == n then Ok(s) else Outcome(Step(s, Boundary(script[e].now, Gathered(script, e, rank))))
  }

  // ----- a completion and a later submission commute

  /** A submission does not look at rows or open tickets, and adds one of each when it issues a ticket. */
  lemma SubmitElsewhere(s: State, t: State, b: Batch)
    requires SameMeasurement(s, t) && |s.records| == |t.records|
    ensures NeedsBoundary(t) == NeedsBoundary(s) && SubmitStep(t, b).reply == SubmitStep(s, b).reply
    ensures SubmitStep(s, b).reply.Returned? ==>
              var sent, other := SubmitStep(s, b), SubmitStep(t, b);
              if sent.reply.ticket.Some? then
                && sent.reply.ticket == Some(s.submitted)
                && sent.state.pending == s.pending + {s.submitted} && |sent.state.records| == |s.records| + 1
                && sent.state.records[..|s.records|] == s.records
                && other.state == sent.state.(pending := t.pending + {s.submitted}, records := t.records + sent.state.records[|s.records|..])
              else sent.state == s && other.state == t
  {
  }

  lemma CompleteParts(s: State, ticket: Option<nat>, n: Option<int>)
    requires WellFormed(s) && CompleteStep(s, ticket, n).reply.Returned?
    ensures var done := CompleteStep(s, ticket, n).state;
            SameMeasurement(s, done) && |s.records| == |done.records| && WellFormed(done)
  {
  }

  lemma Commutes(s: State, b: Batch, ticket: Option<nat>, n: Option<int>)
    requires WellFormed(s) && CompleteStep(s, ticket, n).reply.Returned? && SubmitStep(s, b).reply.Returned?
    ensures var done, sent := CompleteStep(s, ticket, n).state, SubmitStep(s, b).state;
            && WellFormed(done) && WellFormed(sent)
            && CompleteStep(sent, ticket, n) == Stepped(SubmitStep(done, b).state, Returned(None))
  {
    var done, sent := CompleteStep(s, ticket, n).state, Step(s, Submit(b)).state;
    CompleteParts(s, ticket, n);
    SubmitElsewhere(s, done, b);
    if ticket.Some? && SubmitStep(s, b).reply.ticket.Some? {
      var t := ticket.value;
      assert sent.records[t] == sent.records[..|s.records|][t];
      var row := s.records[t].(completed := true, completedTokens := n);
      assert sent.records[t := row] == s.records[t := row] + sent.records[|s.records|..];
      assert sent.pending - {t} == (s.pending - {t}) + {s.submitted};
    }
  }

  // ----- the overlapped window is one completion behind

  /** Once the waiting result is processed, the window of the loop is `s`. */
  ghost predicate Behind(l: Loop, s: State) {
    if l.queue == [] then l.window == s
    else
      && WellFormed(l.window) && |l.queue| == 1
      && CompleteStep(l.window, l.queue[0].ticket, l.queue[0].billed) == Stepped(s, Returned(None))
  }

  lemma BehindParts(l: Loop, s: State)
    requires WellFormed(l.window) && Behind(l, s)
    ensures WellFormed(s) && NeedsBoundary(s) == NeedsBoundary(l.window)
    ensures DrainQueue(l).Ok? && DrainQueue(l).value.window == s && DrainQueue(l).value.queue == []
    ensures DrainQueue(l).value.counters == l.counters
    ensures l.queue != [] ==> ProcessHead(l).Ok? && ProcessHead(l).value.window == s && ProcessHead(l).value.queue == []
                              && ProcessHead(l).value.counters == l.counters
  {
    if l.queue != [] {
      CompleteParts(l.window, l.queue[0].ticket, l.queue[0].billed);
      var m := ProcessHead(l).value;
      assert m.queue == [] && DrainQueue(m) == Ok(m);
    }
  }

  /** Choosing a batch is the boundary of the serial window. */
  lemma NextBehind(cfg: Config, l: Loop, s: State, it: Iteration, rank: nat)
    requires Sound(cfg, l) && Behind(l, s)
    ensures WellFormed(l.window) && WellFormed(s)
    ensures var edge := Step(s, Boundary(it.now, Readings(l.counters, it.others, rank)));
            && (NextBatch(l, it, rank).Ok? <==> edge.reply.Returned?)
            && (edge.reply.Returned? ==>
                  Behind(NextBatch(l, it, rank).value, edge.state) && !NeedsBoundary(edge.state)
                  && NextBatch(l, it, rank).value.counters == l.counters)
  {
    TracksWellFormed(cfg, l.events, l.window);
    BehindParts(l, s);
    DrainSound(cfg, l);
    if NeedsBoundary(l.window) {
      MeasureSound(cfg, DrainQueue(l).value, it, rank);
    }
  }

  /** The step of a serial driver behind its boundary. */
  ghost function SerialRun(s: State, feed: Feed): (r: Result<State, Error>)
    requires WellFormed(s)
    ensures r.Ok? ==> WellFormed(r.value)
  {
    if feed.halted then Err(Preemption) else Forward(s, feed)
  }

  ghost predicate IsFeed(cfg: Config, feed: Feed, work: Work) {
    feed.batch == WorkBatch(cfg, work) && feed.published == work.published && feed.halted == (work.preemptions != 0)
  }

  /** The batch is run, and the result before it processed: only the new result waits. */
  lemma RunThenProcess(cfg: Config, m: Loop, s: State, work: Work)
    requires Sound(cfg, m) && Behind(m, s) && !NeedsBoundary(s)
    ensures WellFormed(m.window) && WellFormed(s)
    ensures var b := WorkBatch(cfg, work);
            && (RunBatch(m, work).Ok? <==> work.preemptions == 0 && SubmitStep(s, b).reply.Returned?)
            && (RunBatch(m, work).Ok? ==>
                  var n := RunBatch(m, work).value;
                  var p := if m.queue == [] then Ok(n) else ProcessHead(n);
                  n.queue != [] && WellFormed(n.window) && p.Ok? && p.value.window == SubmitStep(s, b).state
                  && p.value.queue == [Held(work.handle, SubmitStep(s, b).reply.ticket, Billed(work))])
  {
    TracksWellFormed(cfg, m.events, m.window);
    BehindParts(m, s);
    var b := WorkBatch(cfg, work);
    if m.queue != [] {
      CompleteParts(m.window, m.queue[0].ticket, m.queue[0].billed);
      SubmitElsewhere(m.window, s, b);
      if RunBatch(m, work).Ok? {
        Commutes(m.window, b, m.queue[0].ticket, m.queue[0].billed);
      }
    }
  }

  /** With only the new result waiting: the loop is behind the serial step, or, if that raises, waits for a wrong count. */
  lemma NewResult(s: State, feed: Feed, work: Work, p: Loop)
    requires WellFormed(s) && WellFormed(p.window) && !NeedsBoundary(s)
    requires feed.batch.isDecode == work.pure && feed.published == work.published
    requires SubmitStep(s, feed.batch).reply.Returned? && p.window == SubmitStep(s, feed.batch).state
    requires p.queue == [Held(work.handle, SubmitStep(s, feed.batch).reply.ticket, Billed(work))]
    ensures match Forward(s, feed)
            case Ok(t) => Behind(p, t)
            case Err(_) => !Paid(p.window, p.queue)
  {
    if Forward(s, feed).Err? {
      assert !PaidOne(p.window, p.queue[0]);
    }
  }

  /** What one iteration does to the serial window. */
  ghost function SerialTurn(cfg: Config, s: State, it: Iteration, graph: GraphStats, feed: Feed): (r: Result<State, Error>)
    requires WellFormed(s)
    ensures r.Ok? ==> WellFormed(r.value)
  {
    var edge := Step(s, Boundary(it.now, graph));
    if edge.reply.Raised? then Err(edge.reply.error)
    else if it.work.Some? then SerialRun(edge.state, feed)
    else Ok(edge.state)
  }

  ghost predicate Lags(l: Result<Loop, AdapterError>, s: Result<State, Error>) {
    match s
    case Ok(t) => l.Ok? && Behind(l.value, t)
    case Err(_) => l.Err? || !Paid(l.value.window, l.value.queue)
  }

  lemma ChosenLags(cfg: Config, m: Loop, s: State, it: Iteration, feed: Feed)
    requires Sound(cfg, m) && Behind(m, s) && !NeedsBoundary(s) && m.lastBatch == (m.queue != [])
    requires it.work.Some? ==> IsFeed(cfg, feed, it.work.value)
    ensures WellFormed(m.window) && WellFormed(s)
    ensures var r := if it.work.Some? then RunBatch(m, it.work.value) else Ok(m);
            var p := match r case Err(e) => Err(e) case Ok(n) => ProcessPrevious(n);
            Lags(match p case Err(e) => Err(e) case Ok(q) => Ok(q.(lastBatch := it.work.Some?)),
                 if it.work.Some? then SerialRun(s, feed) else Ok(s))
  {
    TracksWellFormed(cfg, m.events, m.window);
    BehindParts(m, s);
    if it.work.Some? {
      RunThenProcess(cfg, m, s, it.work.value);
      var r := RunBatch(m, it.work.value);
      if r.Ok? {
        var p := if m.queue == [] then r.value else ProcessHead(r.value).value;
        NewResult(s, feed, it.work.value, p);
      }
    }
  }

  /** One iteration of the overlapping loop lags behind one of the serial loop. */
  lemma TurnLags(cfg: Config, l: Loop, s: State, it: Iteration, rank: nat, feed: Feed)
    requires Sound(cfg, l) && Behind(l, s) && l.lastBatch == (l.queue != []) && |l.queue| <= 1
    requires it.work.Some? ==> IsFeed(cfg, feed, it.work.value)
    ensures WellFormed(l.window) && WellFormed(s)
    ensures Lags(Turn(l, it, rank), SerialTurn(cfg, s, it, Readings(l.counters, it.others, rank), feed))
  {
    NextBehind(cfg, l, s, it, rank);
    NextBatchSound(cfg, l, it, rank);
    var edge := Step(s, Boundary(it.now, Readings(l.counters, it.others, rank)));
    if edge.reply.Returned? {
      NextBatchQueue(l, it, rank);
      ChosenLags(cfg, NextBatch(l, it, rank).value, edge.state, it, feed);
    }
  }

  // ----- the counters are counts of the batches that ran

  lemma {:induction false} DrainCounters(l: Loop)
    requires WellFormed(l.window) && DrainQueue(l).Ok?
    ensures DrainQueue(l).value.counters == l.counters
    decreases |l.queue|
  {
    if l.queue != [] {
      DrainCounters(ProcessHead(l).value);
    }
  }

  lemma TurnCounters(l: Loop, it: Iteration, rank: nat)
    requires WellFormed(l.window) && Turn(l, it, rank).Ok?
    ensures Turn(l, it, rank).value.counters == if it.work.Some? then AfterRun(l.counters, it.work.value) else l.counters
  {
    if NeedsBoundary(l.window) {
      DrainCounters(l);
    }
  }

  lemma CountersNext(script: seq<Iteration>, n: nat)
    requires n < |script|
    ensures var c, d := CountersOf(script[..n]), CountersOf(script[..n + 1]);
            match script[n].work
            case None => d == c
            case Some(w) => d == Counters(c.capture + w.captures, c.replay + (if w.pure && w.onGraph then 1 else 0),
                                          c.eager + (if w.pure && !w.onGraph then 1 else 0))
  {
    assert script[..n + 1][..n] == script[..n] && script[..n + 1][n] == script[n];
  }

  /**
   After every run of the loop this rank's counters are: the captures during its batches, the number of its decode
   batches that ran on the graph, and the number of those that did not.
   */
  lemma {:induction false} CountersCount(cfg: Config, script: seq<Iteration>, n: nat, rank: nat)
    requires ValidConfig(cfg) && n <= |script| && Turns(StartLoop(cfg), script[..n], rank).Ok?
    ensures Turns(StartLoop(cfg), script[..n], rank).value.counters == CountersOf(script[..n])
  {
    if n > 0 {
      TurnsSnoc(StartLoop(cfg), script, n - 1, rank);
      CountersCount(cfg, script, n - 1, rank);
      TurnCounters(Turns(StartLoop(cfg), script[..n - 1], rank).value, script[n - 1], rank);
      CountersNext(script, n - 1);
    }
  }

  // ----- the whole loop

  lemma DrivePush(s: State, feeds: seq<Feed>, feed: Feed)
    requires WellFormed(s)
    ensures var r := DriveAll(s, feeds); DriveAll(s, feeds + [feed]) == if r.Err? then r else Drive(r.value, feed)
  {
    assert (feeds + [feed])[..|feeds|] == feeds;
  }

  lemma FeedsNext(cfg: Config, script: seq<Iteration>, n: nat, rank: nat)
    requires ValidConfig(cfg) && n < |script|
    ensures var r := DriveAll(Init(cfg), FeedsOf(cfg, script, n, rank));
            DriveAll(Init(cfg), FeedsOf(cfg, script, n + 1, rank)) ==
            if script[n].work == None || r.Err? then r else Drive(r.value, FeedAt(cfg, script, n, rank))
  {
    if script[n].work == None {
      assert FeedsOf(cfg, script, n + 1, rank) == FeedsOf(cfg, script, n, rank);
    } else {
      DrivePush(Init(cfg), FeedsOf(cfg, script, n, rank), FeedAt(cfg, script, n, rank));
    }
  }

  /** A boundary that is not needed changes nothing, so it does not matter when it is read once it has been. */
  lemma SerialNext(cfg: Config, script: seq<Iteration>, n: nat, rank: nat, feed: Feed)
    requires ValidConfig(cfg) && n < |script|
    requires script[n].work.Some? ==> feed == FeedAt(cfg, script, n, rank)
    requires EdgeAt(script, n) < n && SerialAt(cfg, script, n, rank).Ok? ==> !NeedsBoundary(SerialAt(cfg, script, n, rank).value)
    ensures SerialAt(cfg, script, n, rank).Ok? ==>
              SerialAt(cfg, script, n + 1, rank) ==
              SerialTurn(cfg, SerialAt(cfg, script, n, rank).value, script[n], Gathered(script, n, rank), feed)
    ensures SerialAt(cfg, script, n, rank).Err? ==> SerialAt(cfg, script, n + 1, rank).Err?
  {
    FeedsNext(cfg, script, n, rank);
  }

  /** Before iteration `n` the loop lags behind the serial window, which then stands at no edge that has been read. */
  ghost predicate Refines(cfg: Config, script: seq<Iteration>, n: nat, rank: nat)
    requires ValidConfig(cfg) && n <= |script|
  {
    && Lags(Turns(StartLoop(cfg), script[..n], rank), SerialAt(cfg, script, n, rank))
    && (EdgeAt(script, n) < n && SerialAt(cfg, script, n, rank).Ok? ==> !NeedsBoundary(SerialAt(cfg, script, n, rank).value))
  }

  /** The loop before iteration `n`, with the counters of the batches that ran. */
  ghost predicate RunsTo(cfg: Config, script: seq<Iteration>, n: nat, rank: nat, l: Loop)
    requires ValidConfig(cfg) && n <= |script|
  {
    && Turns(StartLoop(cfg), script[..n], rank) == Ok(l) && l.counters == CountersOf(script[..n]) && Sound(cfg, l)
    && |l.queue| == (if l.lastBatch then 1 else 0)
  }

  lemma TurnsRunTo(cfg: Config, script: seq<Iteration>, n: nat, rank: nat)
    requires ValidConfig(cfg) && n <= |script| && Turns(StartLoop(cfg), script[..n], rank).Ok?
    ensures RunsTo(cfg, script, n, rank, Turns(StartLoop(cfg), script[..n], rank).value)
  {
    StartSound(cfg);
    TurnsSound(cfg, StartLoop(cfg), script[..n], rank);
    CountersCount(cfg, script, n, rank);
  }

  /** An edge that was read is passed. */
  lemma EdgePassed(cfg: Config, script: seq<Iteration>, n: nat, rank: nat, l: Loop)
    requires ValidConfig(cfg) && n < |script| && Refines(cfg, script, n, rank) && script[n].work == None
    requires RunsTo(cfg, script, n, rank, l)
    requires SerialAt(cfg, script, n + 1, rank).Ok?
    ensures !NeedsBoundary(SerialAt(cfg, script, n + 1, rank).value)
  {
    var feed := Feed(0.0, Ranks([]), Batch(false, [], 0, false, [], 0), 0, false);
    SerialNext(cfg, script, n, rank, feed);
    NextBehind(cfg, l, SerialAt(cfg, script, n, rank).value, script[n], rank);
  }

  lemma RefinesNext(cfg: Config, script: seq<Iteration>, n: nat, rank: nat, l: Loop)
    requires ValidConfig(cfg) && n < |script| && Refines(cfg, script, n, rank)
    requires RunsTo(cfg, script, n, rank, l)
    ensures Refines(cfg, script, n + 1, rank)
  {
    var feed := if script[n].work.Some? then FeedAt(cfg, script, n, rank)
                else Feed(0.0, Ranks([]), Batch(false, [], 0, false, [], 0), 0, false);
    TurnsSnoc(StartLoop(cfg), script, n, rank);
    SerialNext(cfg, script, n, rank, feed);
    if SerialAt(cfg, script, n, rank).Ok? {
      TurnLags(cfg, l, SerialAt(cfg, script, n, rank).value, script[n], rank, feed);
      if script[n].work == None && SerialAt(cfg, script, n + 1, rank).Ok? {
        EdgePassed(cfg, script, n, rank, l);
      }
    } else {
      UnpaidRaises(cfg, l, script[n], rank);
    }
  }

  lemma RefinesStopped(cfg: Config, script: seq<Iteration>, n: nat, rank: nat)
    requires ValidConfig(cfg) && n < |script| && Refines(cfg, script, n, rank)
    requires Turns(StartLoop(cfg), script[..n], rank).Err?
    ensures Refines(cfg, script, n + 1, rank)
  {
    var feed := if script[n].work.Some? then FeedAt(cfg, script, n, rank)
                else Feed(0.0, Ranks([]), Batch(false, [], 0, false, [], 0), 0, false);
    TurnsSnoc(StartLoop(cfg), script, n, rank);
    SerialNext(cfg, script, n, rank, feed);
  }

  lemma RefinesStep(cfg: Config, script: seq<Iteration>, n: nat, rank: nat)
    requires ValidConfig(cfg) && n < |script| && Refines(cfg, script, n, rank)
    ensures Refines(cfg, script, n + 1, rank)
  {
    if Turns(StartLoop(cfg), script[..n], rank).Ok? {
      TurnsRunTo(cfg, script, n, rank);
      RefinesNext(cfg, script, n, rank, Turns(StartLoop(cfg), script[..n], rank).value);
    } else {
      RefinesStopped(cfg, script, n, rank);
    }
  }

  /** From one point of the script to a later one. */
  lemma {:induction false} TurnsRefineTo(cfg: Config, script: seq<Iteration>, n: nat, end: nat, rank: nat)
    requires ValidConfig(cfg) && n <= end <= |script| && Refines(cfg, script, n, rank)
    ensures Refines(cfg, script, end, rank)
    decreases end - n
  {
    if n < end {
      RefinesStep(cfg, script, n, rank);
      TurnsRefineTo(cfg, script, n + 1, end, rank);
    }
  }

  lemma TurnsRefine(cfg: Config, script: seq<Iteration>, n: nat, rank: nat)
    requires ValidConfig(cfg) && n <= |script|
    ensures Refines(cfg, script, n, rank)
  {
    RefinesStart(cfg, script, rank);
    TurnsRefineTo(cfg, script, 0, n, rank);
  }

  lemma RefinesStart(cfg: Config, script: seq<Iteration>, rank: nat)
    requires ValidConfig(cfg)
    ensures Refines(cfg, script, 0, rank)
  {
  }

  /** Processing what is left brings the window level with the serial one, or raises. */
  lemma DrainLags(cfg: Config, l: Loop, s: Result<State, Error>)
    requires Sound(cfg, l) && |l.queue| <= 1 && Lags(Ok(l), s) && (s.Ok? ==> WellFormed(s.value))
    ensures WellFormed(l.window)
    ensures match s
            case Ok(t) => DrainQueue(l).Ok? && DrainQueue(l).value.window == t
            case Err(_) => DrainQueue(l).Err?
  {
    TracksWellFormed(cfg, l.events, l.window);
    if s.Ok? {
      BehindParts(l, s.value);
    } else {
      UnpaidHead(cfg, l);
    }
  }

  /**
   The overlapping loop raises nothing exactly when the serial loop on the same batches and readings raises nothing, and
   then they end with the same window.
   */
  lemma LoopIsSerial(cfg: Config, script: seq<Iteration>, rank: nat)
    requires ValidConfig(cfg)
    ensures match SerialAt(cfg, script, |script|, rank)
            case Err(_) => WholeLoop(StartLoop(cfg), script, rank).Err?
            case Ok(s) => WholeLoop(StartLoop(cfg), script, rank).Ok? && WholeLoop(StartLoop(cfg), script, rank).value.window == s
  {
    assert script[..|script|] == script;
    TurnsRefine(cfg, script, |script|, rank);
    var r := Turns(StartLoop(cfg), script, rank);
    if r.Ok? {
      TurnsRunTo(cfg, script, |script|, rank);
      DrainLags(cfg, r.value, SerialAt(cfg, script, |script|, rank));
    }
  }
}
