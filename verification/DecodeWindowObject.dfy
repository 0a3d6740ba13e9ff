/**
 The window as the object the benchmark uses. Rows are shared: `pending` and `records` hold the same
 row objects, and completing a ticket updates the row that `records` already lists. `View` is the
 state of module DecodeWindow that the object stands for.
 */
module DecodeWindowObject {
  import opened Wrappers
  import opened DecodeWindow

  class WorkRow {
    const ticket: nat
    const pureDecode: bool
    const requestIds: seq<int>
    const contexts: seq<int>
    const tokens: int
    const measured: bool
    var completed: bool
    var completedTokens: Option<int>

    constructor (row: Row)
      ensures View() == row.(completed := false, completedTokens := None)
    {
      ticket, pureDecode, requestIds, contexts := row.ticket, row.pureDecode, row.requestIds, row.contexts;
      tokens, measured, completed, completedTokens := row.tokens, row.measured, false, None;
    }

    /** The row is the ledger's entry at its own ticket. */
    ghost predicate Shows(position: nat, row: Row)
      reads this
    {
      ticket == position && View() == row
    }

    method Settle(decodeTokens: Option<int>)
      modifies this
      ensures View() == old(View()).(completed := true, completedTokens := decodeTokens)
    {
      completedTokens := decodeTokens;
      completed := true;
    }

    function View(): Row
      reads this
    {
      Row(ticket, pureDecode, requestIds, contexts, tokens, measured, completed, completedTokens)
    }
  }

  /** Appending a row and remembering its contexts is issuing it. */
  lemma Issued(s: State, t: State, row: Row)
    requires !Jumps(s.started, s.lastContexts, row.contexts)
    requires t.cfg == s.cfg && t.ids == s.ids && t.warmed == s.warmed && t.steps == s.steps && t.tokens == s.tokens
    requires t.started == s.started && t.graphBefore == s.graphBefore && t.result == s.result && t.syncs == s.syncs
    requires t.pending == s.pending + {s.submitted} && t.records == s.records + [row] && t.submitted == s.submitted + 1
    requires t.lastContexts == if s.started != None then Some(row.contexts) else s.lastContexts
    ensures IssueRow(s, row) == Stepped(t, Returned(Some(s.submitted)))
  {
  }

  class PipelinedDecodeWindow {
    const cfg: Config
    var ids: Option<seq<int>>
    var warmed: int
    var steps: int
    var tokens: int
    var started: Option<real>
    var graphBefore: Option<GraphStats>
    var result: Option<WindowResult>
    var pending: map<nat, WorkRow>
    var records: seq<WorkRow>
    var submitted: nat
    var lastContexts: Option<seq<int>>
    var syncs: nat
    /** The contents of `records`, row by row. */
    ghost var ledger: seq<Row>
    /** The row objects. */
    ghost var rows: set<WorkRow>

    /** Rows carry their position as ticket, and a pending ticket's row is that very row. */
    ghost predicate Valid()
      reads this, rows
    {
      && ValidConfig(cfg)
      && submitted == |records| == |ledger|
      && (forall i :: 0 <= i < |records| ==> records[i] in rows && records[i].Shows(i, ledger[i]))
      && (forall t :: t in pending ==> t < |records| && pending[t] == records[t])
      && (warmed > 0 ==> ids.Some?)
      && (started.Some? ==> graphBefore.Some? && ids.Some?)
    }

    ghost function View(): State
      reads this
    {
      State(cfg, ids, warmed, steps, tokens, started, graphBefore, result,
            pending.Keys, ledger, submitted, lastContexts, syncs)
    }

    constructor (cfg: Config)
      requires ValidConfig(cfg)
      ensures Valid() && View() == Init(cfg) && this.cfg == cfg && rows == {}
    {
      this.cfg := cfg;
      ids, warmed, steps, tokens, started, graphBefore, result := None, 0, 0, 0, None, None, None;
      pending, records, submitted, lastContexts, syncs, ledger, rows := map[], [], 0, None, 0, [], {};
    }

    predicate NeedsEdge()
      reads this
    {
      && result == None
      && ((started == None && warmed == cfg.warmupSteps) || (started != None && steps == cfg.targetSteps))
    }

    /** DecodeOnlyWindow.boundary */
    method EdgeOfBase(now: real, graph: GraphStats) returns (reply: Reply)
      requires Valid()
      modifies this`syncs, this`result, this`graphBefore, this`started
      ensures Valid()
      ensures Stepped(View(), reply) == BaseBoundary(old(View()), now, graph)
    {
      reply := Returned(None);
      if result != None {
        return;
      }
      if started != None && steps == cfg.targetSteps {
        syncs := syncs + 1;
        var delta := GraphDelta(graphBefore.value, graph, steps);
        if delta.Err? {
          return Raised(delta.error);
        }
        var elapsed := now - started.value;
        var throughput := StageThroughput(tokens, elapsed);
        if throughput.Err? {
          return Raised(throughput.error);
        }
        result := Some(WindowResult(BoundarySyncV1, cfg.concurrency, ids.value, cfg.warmupSteps, steps, tokens, elapsed,
                                    throughput.value, 2, delta.value, started.value, now, [], [], 0));
      } else if started == None && warmed == cfg.warmupSteps {
        syncs := syncs + 1;
        graphBefore := Some(graph);
        started := Some(now);
      }
    }

    /** The rows selected for the result, and whether all of them are complete. */
    method SelectMeasured() returns (selected: seq<Row>, allCompleted: bool)
      requires Valid()
      ensures selected == Measured(View().records)
      ensures allCompleted <==> forall i :: 0 <= i < |selected| ==> selected[i].completed
    {
      selected, allCompleted := [], true;
      var n := 0;
      while n < |records|
        invariant 0 <= n <= |records|
        invariant selected == Measured(ledger[..n])
        invariant allCompleted <==> forall i :: 0 <= i < |selected| ==> selected[i].completed
      {
        var row := records[n].View();
        assert ledger[..n + 1][..n] == ledger[..n];
        if row.measured {
          assert (selected + [row])[|selected|] == row;
          assert forall i :: 0 <= i < |selected| ==> (selected + [row])[i] == selected[i];
          selected := selected + [row];
          allCompleted := allCompleted && row.completed;
        }
        n := n + 1;
      }
      assert ledger[..n] == ledger;
    }

    /** The end of PipelinedDecodeWindow.boundary: check the measured rows and complete the result. */
    method FinishResult() returns (reply: Reply)
      requires Valid() && result.Some?
      modifies this`result
      ensures Valid()
      ensures Stepped(View(), reply) == Conclude(old(View()))
    {
      var selected, allCompleted := SelectMeasured();
      if |selected| != cfg.targetSteps || !allCompleted {
        return Raised(IncompleteWork);
      }
      result := Some(WithContexts(result.value, selected));
      reply := Returned(None);
    }

    /** PipelinedDecodeWindow.boundary */
    method Boundary(now: real, graph: GraphStats) returns (reply: Reply)
      requires Valid()
      modifies this`syncs, this`result, this`graphBefore, this`started
      ensures Valid() && WellFormed(old(View()))
      ensures Stepped(View(), reply) == BoundaryStep(old(View()), now, graph)
    {
      if !NeedsEdge() {
        return Returned(None);
      }
      if pending.Keys != {} {
        return Raised(UndrainedBoundary);
      }
      reply := EdgeOfBase(now, graph);
      if reply.Returned? && result != None {
        reply := FinishResult();
      }
    }

    /** DecodeOnlyWindow.observe */
    method ObserveBatch(b: Batch) returns (reply: Reply)
      requires Valid()
      modifies this`ids, this`warmed, this`steps, this`tokens
      ensures Valid()
      ensures Stepped(View(), reply) == Observe(old(View()), Seen(cfg, b))
    {
      reply := Returned(None);
      if result != None {
        return;
      }
      var sorted := SortedIds(b.requestIds);
      var eligible := Eligible(cfg, b);
      if started != None {
        if !eligible || ids != Some(sorted) {
          return Raised(Contaminated);
        }
        steps := steps + 1;
        tokens := tokens + b.tokens;
      } else if eligible {
        if ids != Some(sorted) {
          ids, warmed := Some(sorted), 0;
        }
        warmed := warmed + 1;
      } else {
        ids, warmed := None, 0;
      }
    }

    /** The append of a row shared between `pending` and `records`. */
    method Issue(shared: WorkRow) returns (ticket: nat)
      requires Valid() && shared.ticket == submitted
      modifies this`pending, this`records, this`submitted, this`ledger, this`rows
      ensures Valid() && ticket == old(submitted)
      ensures submitted == old(submitted) + 1 && pending.Keys == old(pending.Keys) + {ticket}
      ensures ledger == old(ledger) + [shared.View()] && rows == old(rows) + {shared}
    {
      ticket := submitted;
      submitted := submitted + 1;
      pending := pending[ticket := shared];
      records := records + [shared];
      rows := rows + {shared};
      ledger := ledger + [shared.View()];
    }

    /** The end of submit. */
    method CheckAndIssue(row: Row) returns (reply: Reply)
      requires Valid() && row.ticket == submitted && !row.completed && row.completedTokens == None
      modifies this`pending, this`records, this`submitted, this`ledger, this`rows, this`lastContexts
      ensures Valid() && Stepped(View(), reply) == IssueRow(old(View()), row)
      ensures fresh(rows - old(rows))
    {
      ghost var before := View();
      if Jumps(started, lastContexts, row.contexts) {
        return Raised(ContextJump);
      }
      var contexts := if started != None then Some(row.contexts) else lastContexts;
      reply := Append(row, contexts);
      Issued(before, View(), row);
    }

    /** The part of submit behind its argument checks. */
    method EnterBatch(b: Batch, row: Row) returns (reply: Reply)
      requires Valid() && row.ticket == submitted && !row.completed && row.completedTokens == None
      modifies this
      ensures Valid() && Stepped(View(), reply) == Enter(old(View()), Seen(cfg, b), row)
      ensures fresh(rows - old(rows))
    {
      reply := ObserveBatch(b);
      if reply.Returned? {
        reply := CheckAndIssue(row);
      }
    }

    /** The new row, and the contexts the next one will be compared with. */
    method Append(row: Row, contexts: Option<seq<int>>) returns (reply: Reply)
      requires Valid() && row.ticket == submitted && !row.completed && row.completedTokens == None
      modifies this`pending, this`records, this`submitted, this`ledger, this`rows, this`lastContexts
      ensures Valid() && reply == Returned(Some(old(submitted))) && lastContexts == contexts
      ensures submitted == old(submitted) + 1 && pending.Keys == old(pending.Keys) + {old(submitted)}
      ensures ledger == old(ledger) + [row]
      ensures fresh(rows - old(rows))
    {
      lastContexts := contexts;
      var shared := new WorkRow(row);
      var ticket := Issue(shared);
      reply := Returned(Some(ticket));
    }

    /** PipelinedDecodeWindow.submit */
    method Submit(b: Batch) returns (reply: Reply)
      requires Valid()
      modifies this
      ensures Valid() && Stepped(View(), reply) == SubmitStep(old(View()), b)
      ensures fresh(rows - old(rows))
    {
      if result != None {
        return Returned(None);
      }
      if NeedsEdge() {
        return Raised(CrossedEdge);
      }
      if b.preemptions != 0 {
        return Raised(Preemption);
      }
      if |b.contexts| != |b.requestIds| || exists i :: 0 <= i < |b.contexts| && b.contexts[i] < 0 {
        return Raised(MissingContexts);
      }
      reply := EnterBatch(b, NewRow(submitted, b, started != None));
    }

    /** PipelinedDecodeWindow.complete */
    method Complete(ticket: Option<nat>, decodeTokens: Option<int>) returns (reply: Reply)
      requires Valid()
      modifies this`pending, this`ledger, rows
      ensures Valid() && WellFormed(old(View()))
      ensures Stepped(View(), reply) == CompleteStep(old(View()), ticket, decodeTokens)
    {
      if ticket == None {
        return Returned(None);
      }
      var t := ticket.value;
      if t !in pending {
        return Raised(UnknownTicket);
      }
      var row := pending[t];
      pending := pending - {t};
      if row.pureDecode && decodeTokens != Some(row.tokens) {
        return Raised(TokenMismatch);
      }
      SettleRow(t, row, decodeTokens);
      reply := Returned(None);
    }

    /** The update of a row through `pending`, seen through `records`. */
    method SettleRow(t: nat, row: WorkRow, decodeTokens: Option<int>)
      requires Valid() && t < |records| && records[t] == row
      modifies this`ledger, rows
      ensures Valid() && ledger == old(ledger)[t := old(ledger)[t].(completed := true, completedTokens := decodeTokens)]
    {
      assert row.Shows(t, ledger[t]);
      row.Settle(decodeTokens);
      ledger := ledger[t := row.View()];
      assert forall i :: 0 <= i < |records| && i != t ==> records[i].ticket == i && records[i] != row;
    }

    /** DecodeOnlyWindow.require_result */
    method RequireResult() returns (r: Result<WindowResult, Error>)
      ensures r == if result.Some? then Ok(result.value) else Err(NoResult)
    {
      r := if result.Some? then Ok(result.value) else Err(NoResult);
    }
  }
}
