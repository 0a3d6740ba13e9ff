/**
 Completion order does not matter.

 `Serial` is the simple form of the protocol: every submission completes at once. A pipelined run
 reaches the same window as the serial run of its submissions and boundaries, up to which rows are
 still open; and two runs that complete the same tickets with the same counts, in whatever order
 and interleaving, reach the same state.
 */
module DecodeWindowConfluence {
  import opened Wrappers
  import opened DecodeWindow
  import opened DecodeWindowHistory
  import opened DecodeWindowTheorems

  function DrainRow(row: Row): Row { row.(completed := true, completedTokens := None) }

  function DrainRows(rows: seq<Row>): (r: seq<Row>)
    ensures |r| == |rows|
    ensures forall i :: 0 <= i < |rows| ==> r[i] == DrainRow(rows[i])
  {
    seq(|rows|, i requires 0 <= i < |rows| => DrainRow(rows[i]))
  }

  /** The state with nothing in flight and completion details forgotten. */
  function Drain(s: State): State { s.(pending := {}, records := DrainRows(s.records)) }

  /** The submissions and boundaries of a run, in order. */
  ghost function Issued(events: seq<Event>): seq<Event> {
    if events == [] then []
    else Issued(events[..|events| - 1]) + (if events[|events| - 1].Complete? then [] else [events[|events| - 1]])
  }

  /** The token count each completed ticket was completed with. */
  ghost function Completions(events: seq<Event>): map<nat, Option<int>> {
    if events == [] then map[]
    else
      var e := events[|events| - 1];
      var before := Completions(events[..|events| - 1]);
      if e.Complete? && e.ticket.Some? then before[e.ticket.value := e.decodeTokens] else before
  }

  ghost function SerialNext(cfg: Config, t: Trace, e: Event): (r: Option<Trace>)
    requires WellFormed(t.state)
    ensures r.Some? ==> WellFormed(r.value.state)
  {
    match Next(cfg, t, e)
    case None => None
    case Some(t') => Some(Trace(Drain(t'.state), t'.history))
  }

  /** Each submission completes before the next call. */
  ghost function Serial(cfg: Config, events: seq<Event>): (r: Option<Trace>)
    requires ValidConfig(cfg)
    ensures r.Some? ==> WellFormed(r.value.state)
  {
    if events == [] then Some(Start(cfg))
    else
      match Serial(cfg, events[..|events| - 1])
      case None => None
      case Some(t) => SerialNext(cfg, t, events[|events| - 1])
  }

  // ----- draining commutes with every call

  lemma {:induction false} MeasuredDrained(rows: seq<Row>)
    ensures Measured(DrainRows(rows)) == DrainRows(Measured(rows))
  {
    if rows != [] {
      var front, last := rows[..|rows| - 1], rows[|rows| - 1];
      MeasuredDrained(front);
      assert DrainRows(rows)[..|rows| - 1] == DrainRows(front);
      if last.measured {
        assert DrainRows(Measured(front) + [last]) == DrainRows(Measured(front)) + [DrainRow(last)];
      }
    }
  }

  lemma DrainBase(s: State, now: real, graph: GraphStats)
    requires Coherent(s)
    ensures BaseBoundary(Drain(s), now, graph) ==
            Stepped(Drain(BaseBoundary(s, now, graph).state), BaseBoundary(s, now, graph).reply)
  {
    if s.result == None && s.started != None && s.steps == s.cfg.targetSteps {
      assert BaseResult(Drain(s), now, graph) == BaseResult(s, now, graph);
    }
  }

  lemma DrainConclude(s: State)
    requires s.result.Some? && ValidConfig(s.cfg) && Conclude(s).reply.Returned?
    ensures Conclude(Drain(s)) == Stepped(Drain(Conclude(s).state), Conclude(s).reply)
  {
    MeasuredDrained(s.records);
    assert DrainRows(Measured(s.records))[0].contexts == Measured(s.records)[0].contexts;
  }

  lemma DrainBoundary(s: State, now: real, graph: GraphStats)
    requires WellFormed(s) && BoundaryStep(s, now, graph).reply.Returned?
    ensures BoundaryStep(Drain(s), now, graph).reply.Returned?
    ensures Drain(BoundaryStep(s, now, graph).state) == BoundaryStep(Drain(s), now, graph).state
    ensures BoundaryStep(s, now, graph).reply.ticket == BoundaryStep(Drain(s), now, graph).reply.ticket == None
  {
    if NeedsBoundary(s) {
      DrainBase(s, now, graph);
      var base := BaseBoundary(s, now, graph);
      if base.state.result.Some? {
        DrainConclude(base.state);
      }
    }
  }

  lemma DrainEnter(s: State, sub: Submission, row: Row)
    requires Enter(s, sub, row).reply.Returned?
    ensures Enter(Drain(s), sub, row).reply == Enter(s, sub, row).reply
    ensures Drain(Enter(s, sub, row).state) == Drain(Enter(Drain(s), sub, row).state)
  {
    assert Observe(Drain(s), sub).reply == Observe(s, sub).reply;
    assert DrainRows(s.records + [row]) == DrainRows(s.records) + [DrainRow(row)];
    assert DrainRows(DrainRows(s.records) + [row]) == DrainRows(s.records) + [DrainRow(row)];
  }

  lemma DrainSubmit(s: State, b: Batch)
    requires SubmitStep(s, b).reply.Returned?
    ensures SubmitStep(Drain(s), b).reply == SubmitStep(s, b).reply
    ensures Drain(SubmitStep(s, b).state) == Drain(SubmitStep(Drain(s), b).state)
  {
    DrainTwice(s);
    if s.result == None {
      DrainEnter(s, Seen(s.cfg, b), NewRow(s.submitted, b, s.started != None));
    }
  }

  lemma DrainTwice(s: State)
    ensures Drain(Drain(s)) == Drain(s)
  {
    assert DrainRows(DrainRows(s.records)) == DrainRows(s.records);
  }

  lemma DrainComplete(s: State, ticket: Option<nat>, n: Option<int>)
    requires WellFormed(s) && CompleteStep(s, ticket, n).reply.Returned?
    ensures Drain(CompleteStep(s, ticket, n).state) == Drain(s)
  {
    assert DrainRows(CompleteStep(s, ticket, n).state.records) == DrainRows(s.records);
  }

  lemma NextDrained(cfg: Config, t: Trace, e: Event)
    requires WellFormed(t.state) && Next(cfg, t, e).Some? && !e.Complete?
    ensures var t' := Next(cfg, t, e).value;
            SerialNext(cfg, Trace(Drain(t.state), t.history), e) == Some(Trace(Drain(t'.state), t'.history))
  {
    match e
    case Boundary(now, graph) =>
      DrainBoundary(t.state, now, graph);
      DrainTwice(BoundaryStep(t.state, now, graph).state);
    case Submit(b) => DrainSubmit(t.state, b);
    case Complete(_, _) =>
  }

  /** Every pipelined run refines the serial run of the same submissions and boundaries. */
  lemma {:induction false} PipelinedRefinesSerial(cfg: Config, events: seq<Event>)
    requires ValidConfig(cfg) && Run(cfg, events).Some?
    ensures var t := Run(cfg, events).value;
            Serial(cfg, Issued(events)) == Some(Trace(Drain(t.state), t.history))
  {
    if events != [] {
      var front, e := events[..|events| - 1], events[|events| - 1];
      var t := Run(cfg, front).value;
      PipelinedRefinesSerial(cfg, front);
      if e.Complete? {
        DrainComplete(t.state, e.ticket, e.decodeTokens);
        assert Issued(events) == Issued(front);
      } else {
        NextDrained(cfg, t, e);
        assert Issued(events)[..|Issued(events)| - 1] == Issued(front);
      }
    } else {
      assert DrainRows([]) == [];
    }
  }

  // ----- the completion fields are exactly the completions

  ghost predicate Settled(s: State, done: map<nat, Option<int>>) {
    && (forall t :: t in done ==> t < |s.records|)
    && (forall i :: 0 <= i < |s.records| ==> (s.records[i].completed <==> i in done))
    && (forall i :: 0 <= i < |s.records| && i in done ==> s.records[i].completedTokens == done[i])
  }

  lemma NextSettled(cfg: Config, t: Trace, e: Event, done: map<nat, Option<int>>)
    requires WellFormed(t.state) && Settled(t.state, done) && Next(cfg, t, e).Some?
    ensures Settled(Next(cfg, t, e).value.state,
                    if e.Complete? && e.ticket.Some? then done[e.ticket.value := e.decodeTokens] else done)
  {
    match e
    case Boundary(_, _) =>
    case Submit(b) =>
      if t.state.result == None {
        assert Enter(t.state, Seen(t.state.cfg, b), NewRow(t.state.submitted, b, t.state.started != None)).state.records
            == t.state.records + [NewRow(t.state.submitted, b, t.state.started != None)];
      }
    case Complete(_, _) =>
  }

  lemma {:induction false} RunSettled(cfg: Config, events: seq<Event>)
    requires ValidConfig(cfg) && Run(cfg, events).Some?
    ensures Settled(Run(cfg, events).value.state, Completions(events))
  {
    if events != [] {
      var front := events[..|events| - 1];
      RunSettled(cfg, front);
      NextSettled(cfg, Run(cfg, front).value, events[|events| - 1], Completions(front));
    }
  }

  lemma SameState(s: State, s': State, done: map<nat, Option<int>>, h: seq<Submission>, h': seq<Submission>)
    requires Drain(s) == Drain(s') && Settled(s, done) && Settled(s', done)
    requires Ledger(s, h) && Ledger(s', h')
    ensures s == s'
  {
    assert |DrainRows(s.records)| == |DrainRows(s'.records)|;
    forall i | 0 <= i < |s.records| ensures s.records[i] == s'.records[i] {
      assert DrainRow(s.records[i]) == DrainRows(s.records)[i] == DrainRow(s'.records[i]);
      assert Accounted(s.records[i]) && Accounted(s'.records[i]);
    }
    assert s.records == s'.records;
    assert s.pending == s'.pending;
    assert s == Drain(s).(pending := s.pending, records := s.records);
  }

  /**
   Confluence: same submissions, boundaries and readings, same completed tickets and counts, any two
   legal completion orders and interleavings: the same ledger, the same result, the same state.
   */
  lemma CompletionOrderIrrelevant(cfg: Config, one: seq<Event>, other: seq<Event>)
    requires ValidConfig(cfg) && Run(cfg, one).Some? && Run(cfg, other).Some?
    requires Issued(one) == Issued(other) && Completions(one) == Completions(other)
    ensures Run(cfg, one) == Run(cfg, other)
  {
    PipelinedRefinesSerial(cfg, one);
    PipelinedRefinesSerial(cfg, other);
    RunSettled(cfg, one);
    RunSettled(cfg, other);
    RunExplained(cfg, one);
    RunExplained(cfg, other);
    var a, b := Run(cfg, one).value, Run(cfg, other).value;
    SameState(a.state, b.state, Completions(one), a.history, b.history);
  }

  // ----- exactly which runs raise nothing

  /** After the legal calls `t` and completions `done`, the call keeps the pipeline's rules. */
  ghost predicate Keeps(t: Trace, done: set<nat>, e: Event) {
    match e
    case Boundary(_, _) => NeedsBoundary(t.state) ==> forall k :: 0 <= k < |t.history| ==> k in done
    case Submit(_) => true
    case Complete(ticket, n) =>
      ticket.Some? ==>
        && ticket.value < |t.history| && ticket.value !in done
        && (t.history[ticket.value].batch.isDecode ==> n == Some(t.history[ticket.value].batch.tokens))
  }

  /** Every completion is of an open ticket with the right count, and nothing is open at an edge of the serial run. */
  ghost predicate Orderly(cfg: Config, events: seq<Event>)
    requires ValidConfig(cfg)
  {
    events != [] ==>
      var front, e := events[..|events| - 1], events[|events| - 1];
      && Orderly(cfg, front) && Serial(cfg, Issued(front)).Some?
      && Keeps(Serial(cfg, Issued(front)).value, Completions(front).Keys, e)
  }

  /** In a reachable state the open tickets are those issued and not completed. */
  ghost predicate Accounts(t: Trace, done: set<nat>) {
    && Explained(t.state, t.history) && WellFormed(t.state)
    && forall k :: 0 <= k < |t.history| ==> (k in t.state.pending <==> k !in done)
  }

  lemma BoundaryRaises(cfg: Config, t: Trace, done: set<nat>, now: real, graph: GraphStats)
    requires Accounts(t, done)
    ensures BoundaryStep(t.state, now, graph).reply.Returned? <==>
            BoundaryStep(Drain(t.state), now, graph).reply.Returned? && Keeps(Trace(Drain(t.state), t.history), done, Boundary(now, graph))
  {
    var s := t.state;
    if BoundaryStep(s, now, graph).reply.Returned? {
      DrainBoundary(s, now, graph);
    } else if s.pending == {} {
      MeasuredDrained(s.records);
      IncompleteWorkUnreachable(s, t.history, now, graph);
    }
  }

  lemma SubmitRaises(s: State, b: Batch)
    ensures SubmitStep(s, b).reply.Returned? <==> SubmitStep(Drain(s), b).reply.Returned?
  {
  }

  lemma CompleteRaises(t: Trace, done: set<nat>, ticket: Option<nat>, n: Option<int>)
    requires Accounts(t, done)
    ensures CompleteStep(t.state, ticket, n).reply.Returned? <==>
            Keeps(Trace(Drain(t.state), t.history), done, Complete(ticket, n))
  {
    if ticket.Some? && ticket.value < |t.history| {
      assert RowOf(t.state.records[ticket.value], t.history[ticket.value], ticket.value);
    }
  }

  lemma NextRaises(cfg: Config, t: Trace, done: set<nat>, e: Event)
    requires Accounts(t, done)
    ensures Next(cfg, t, e).Some? <==>
            (e.Complete? || SerialNext(cfg, Trace(Drain(t.state), t.history), e).Some?)
            && Keeps(Trace(Drain(t.state), t.history), done, e)
  {
    match e
    case Boundary(now, graph) => BoundaryRaises(cfg, t, done, now, graph);
    case Submit(b) => SubmitRaises(t.state, b);
    case Complete(ticket, n) => CompleteRaises(t, done, ticket, n);
  }

  lemma RunAccounts(cfg: Config, events: seq<Event>)
    requires ValidConfig(cfg) && Run(cfg, events).Some?
    ensures Accounts(Run(cfg, events).value, Completions(events).Keys)
  {
    RunExplained(cfg, events);
    RunSettled(cfg, events);
  }

  /**
   A pipelined run raises nothing if and only if the serial run of its submissions and boundaries raises
   nothing, each completion is of an open ticket with the right count, and nothing is open at an edge.
   */
  lemma {:induction false} RaisesNothing(cfg: Config, events: seq<Event>)
    requires ValidConfig(cfg)
    ensures Run(cfg, events).Some? <==> Serial(cfg, Issued(events)).Some? && Orderly(cfg, events)
  {
    if events != [] {
      var front, e := events[..|events| - 1], events[|events| - 1];
      RaisesNothing(cfg, front);
      SerialPrefix(cfg, events);
      if Run(cfg, front).Some? {
        var t := Run(cfg, front).value;
        PipelinedRefinesSerial(cfg, front);
        RunAccounts(cfg, front);
        NextRaises(cfg, t, Completions(front).Keys, e);
      }
    }
  }

  /** The serial run of one call more. */
  lemma SerialPrefix(cfg: Config, events: seq<Event>)
    requires ValidConfig(cfg) && events != []
    ensures var front, e := events[..|events| - 1], events[|events| - 1];
            Serial(cfg, Issued(events)) ==
            if e.Complete? || Serial(cfg, Issued(front)) == None then Serial(cfg, Issued(front))
            else SerialNext(cfg, Serial(cfg, Issued(front)).value, e)
  {
    var front, e := events[..|events| - 1], events[|events| - 1];
    if e.Complete? {
      assert Issued(events) == Issued(front);
    } else {
      assert Issued(events)[..|Issued(events)| - 1] == Issued(front);
    }
  }
}
