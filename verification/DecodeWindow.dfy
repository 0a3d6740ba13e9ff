/**
 The decode-measurement window of benchmark/efficiency/metrics.py as a state machine.

 `State` holds the fields of PipelinedDecodeWindow and of its base class DecodeOnlyWindow.
 Every public call is a function from a state to a state and a reply; a raised exception is
 the reply `Raised`, and the state beside it is the state the call leaves behind, including
 the updates the code makes before it raises. The clock and the graph counters are read at a
 boundary only and are arguments of that call; `syncs` counts device synchronizations.
 */
module DecodeWindow {
  import opened Wrappers
  import opened Sorting

  datatype Config = Config(concurrency: int, targetSteps: int, warmupSteps: int)

  /** What the constructor demands (it raises otherwise). */
  predicate ValidConfig(cfg: Config) {
    cfg.concurrency >= 1 && cfg.targetSteps >= 1 && cfg.warmupSteps >= 1
  }

  datatype Counters = Counters(capture: int, replay: int, eager: int)

  /** Graph counters of one rank in the legacy form, or of every participating rank. */
  datatype GraphStats = Single(rank: Counters) | Ranks(ranks: seq<Counters>)

  datatype Scope = BoundarySyncV1 | BoundarySyncV2

  datatype WindowResult = WindowResult(
    scope: Scope, concurrency: int, requestIds: seq<int>, discardedSteps: int,
    decodeSteps: int, decodeTokens: int, elapsed: real, throughput: Option<real>,
    synchronizations: int, graphDelta: GraphStats, started: real, finished: real,
    contextsStart: seq<int>, contextsEnd: seq<int>, completedSteps: int)

  /** One submitted forward; `completedTokens` is absent until the work completes. */
  datatype Row = Row(
    ticket: nat, pureDecode: bool, requestIds: seq<int>, contexts: seq<int>, tokens: int,
    measured: bool, completed: bool, completedTokens: Option<int>)

  datatype Batch = Batch(
    isDecode: bool, requestIds: seq<int>, tokens: int, admissionComplete: bool,
    contexts: seq<int>, preemptions: int)

  /** A batch as the window sees it: whether it may be measured, and its ordered request set. */
  datatype Submission = Submission(batch: Batch, eligible: bool, ids: seq<int>)

  datatype State = State(
    cfg: Config, ids: Option<seq<int>>, warmed: int, steps: int, tokens: int,
    started: Option<real>, graphBefore: Option<GraphStats>, result: Option<WindowResult>,
    pending: set<nat>, records: seq<Row>, submitted: nat,
    lastContexts: Option<seq<int>>, syncs: nat)

  datatype Error =
    | UndrainedBoundary | IncompleteWork | LostRanks | GraphContract | InvalidStageTime
    | CrossedEdge | Preemption | MissingContexts | Contaminated | ContextJump
    | UnknownTicket | TokenMismatch | NoResult

  datatype Reply = Returned(ticket: Option<nat>) | Raised(error: Error)

  datatype Stepped = Stepped(state: State, reply: Reply)

  datatype Event =
    | Boundary(now: real, graph: GraphStats)
    | Submit(batch: Batch)
    | Complete(ticket: Option<nat>, decodeTokens: Option<int>)

  function Init(cfg: Config): State {
    State(cfg, None, 0, 0, 0, None, None, None, {}, [], 0, None, 0)
  }

  // ----- ordering of requests

  predicate IntLe(a: int, b: int) { a <= b }

  predicate PairLe(a: (int, int), b: (int, int)) {
    a.0 < b.0 || (a.0 == b.0 && a.1 <= b.1)
  }

  function SortedIds(ids: seq<int>): seq<int> { Sort(IntLe, ids) }

  predicate Distinct(ids: seq<int>) {
    forall i, j :: 0 <= i < j < |ids| ==> ids[i] != ids[j]
  }

  function Zip(xs: seq<int>, ys: seq<int>): (r: seq<(int, int)>)
    requires |xs| == |ys|
    ensures |r| == |xs|
  {
    seq(|xs|, i requires 0 <= i < |xs| => (xs[i], ys[i]))
  }

  function Firsts(ps: seq<(int, int)>): (r: seq<int>)
    ensures |r| == |ps|
    ensures forall i :: 0 <= i < |ps| ==> r[i] == ps[i].0
  {
    seq(|ps|, i requires 0 <= i < |ps| => ps[i].0)
  }

  function Seconds(ps: seq<(int, int)>): (r: seq<int>)
    ensures |r| == |ps|
    ensures forall i :: 0 <= i < |ps| ==> r[i] == ps[i].1
  {
    seq(|ps|, i requires 0 <= i < |ps| => ps[i].1)
  }

  function SortedPairs(b: Batch): (r: seq<(int, int)>)
    requires |b.contexts| == |b.requestIds|
    ensures |r| == |b.requestIds|
  {
    Sort(PairLe, Zip(b.requestIds, b.contexts))
  }

  function Bump(xs: seq<int>): (r: seq<int>)
    ensures |r| == |xs|
    ensures forall i :: 0 <= i < |xs| ==> r[i] == xs[i] + 1
  {
    seq(|xs|, i requires 0 <= i < |xs| => xs[i] + 1)
  }

  // ----- the calls

  predicate Eligible(cfg: Config, b: Batch) {
    && b.isDecode && b.admissionComplete
    && |b.requestIds| == cfg.concurrency
    && Distinct(b.requestIds)
    && b.tokens == cfg.concurrency
  }

  predicate NeedsBoundary(s: State) {
    && s.result == None
    && ((s.started == None && s.warmed == s.cfg.warmupSteps)
        || (s.started != None && s.steps == s.cfg.targetSteps))
  }

  /** stage_throughput: tokens over positive time, None for no work. */
  function StageThroughput(tokens: int, elapsed: real): Result<Option<real>, Error> {
    if tokens < 0 || elapsed < 0.0 then Err(InvalidStageTime)
    else if tokens == 0 then Ok(None)
    else if elapsed <= 0.0 then Err(InvalidStageTime)
    else Ok(Some(tokens as real / elapsed))
  }

  function RankDelta(before: Counters, after: Counters, steps: int): Result<Counters, Error> {
    var delta := Counters(after.capture - before.capture, after.replay - before.replay, after.eager - before.eager);
    if delta.capture != 0 || delta.eager != 0 || delta.replay != steps then Err(GraphContract) else Ok(delta)
  }

  /** The list comprehension over zipped ranks: the first failing rank raises. */
  function RanksDelta(before: seq<Counters>, after: seq<Counters>, steps: int): Result<seq<Counters>, Error>
    requires |before| == |after|
  {
    if before == [] then Ok([])
    else
      match RankDelta(before[0], after[0], steps)
      case Err(e) => Err(e)
      case Ok(d) =>
        match RanksDelta(before[1..], after[1..], steps)
        case Err(e) => Err(e)
        case Ok(ds) => Ok([d] + ds)
  }

  function GraphDelta(before: GraphStats, after: GraphStats, steps: int): Result<GraphStats, Error> {
    match before
    case Ranks(bs) =>
      if bs == [] || !after.Ranks? || |bs| != |after.ranks| then Err(LostRanks)
      else
        (match RanksDelta(bs, after.ranks, steps)
         case Err(e) => Err(e)
         case Ok(ds) => Ok(Ranks(ds)))
    case Single(b) =>
      if !after.Single? then Err(GraphContract)
      else
        match RankDelta(b, after.rank, steps)
        case Err(e) => Err(e)
        case Ok(d) => Ok(Single(d))
  }

  /** Result of the base class at the closing edge; contexts are filled in by the subclass. */
  function BaseResult(s: State, now: real, graph: GraphStats): Result<WindowResult, Error>
    requires s.started.Some? && s.graphBefore.Some? && s.ids.Some?
  {
    match GraphDelta(s.graphBefore.value, graph, s.steps)
    case Err(e) => Err(e)
    case Ok(delta) =>
      var elapsed := now - s.started.value;
      match StageThroughput(s.tokens, elapsed)
      case Err(e) => Err(e)
      case Ok(tps) =>
        Ok(WindowResult(BoundarySyncV1, s.cfg.concurrency, s.ids.value, s.cfg.warmupSteps, s.steps,
                        s.tokens, elapsed, tps, 2, delta, s.started.value, now, [], [], 0))
  }

  /** A warm or started window knows its request set, a started one the counters at its start. */
  predicate Coherent(s: State) {
    && (s.warmed > 0 ==> s.ids.Some?)
    && (s.started.Some? ==> s.graphBefore.Some? && s.ids.Some?)
  }

  /** DecodeOnlyWindow.boundary */
  function BaseBoundary(s: State, now: real, graph: GraphStats): Stepped
    requires Coherent(s)
  {
    if s.result != None then Stepped(s, Returned(None))
    else if s.started != None && s.steps == s.cfg.targetSteps then
      var synced := s.(syncs := s.syncs + 1);
      match BaseResult(s, now, graph)
      case Err(e) => Stepped(synced, Raised(e))
      case Ok(r) => Stepped(synced.(result := Some(r)), Returned(None))
    else if s.started == None && s.warmed == s.cfg.warmupSteps then
      Stepped(s.(syncs := s.syncs + 1, graphBefore := Some(graph), started := Some(now)), Returned(None))
    else Stepped(s, Returned(None))
  }

  function Measured(rows: seq<Row>): seq<Row> {
    if rows == [] then []
    else Measured(rows[..|rows| - 1]) + (if rows[|rows| - 1].measured then [rows[|rows| - 1]] else [])
  }

  function WithContexts(r: WindowResult, selected: seq<Row>): WindowResult
    requires selected != []
  {
    r.(scope := BoundarySyncV2, contextsStart := selected[0].contexts,
       contextsEnd := Bump(selected[|selected| - 1].contexts), completedSteps := |selected|)
  }

  /** The end of PipelinedDecodeWindow.boundary: check the measured rows and complete the result. */
  function Conclude(s: State): Stepped
    requires s.result.Some? && ValidConfig(s.cfg)
  {
    var selected := Measured(s.records);
    if |selected| != s.cfg.targetSteps || exists i :: 0 <= i < |selected| && !selected[i].completed then
      Stepped(s, Raised(IncompleteWork))
    else
      Stepped(s.(result := Some(WithContexts(s.result.value, selected))), Returned(None))
  }

  /** PipelinedDecodeWindow.boundary */
  function BoundaryStep(s: State, now: real, graph: GraphStats): Stepped
    requires Coherent(s) && ValidConfig(s.cfg)
  {
    if !NeedsBoundary(s) then Stepped(s, Returned(None))
    else if s.pending != {} then Stepped(s, Raised(UndrainedBoundary))
    else
      var base := BaseBoundary(s, now, graph);
      if base.reply.Raised? || base.state.result == None then base else Conclude(base.state)
  }

  function Seen(cfg: Config, b: Batch): Submission {
    Submission(b, Eligible(cfg, b), SortedIds(b.requestIds))
  }

  /** DecodeOnlyWindow.observe */
  function Observe(s: State, sub: Submission): Stepped {
    if s.result != None then Stepped(s, Returned(None))
    else if s.started != None then
      if !sub.eligible || Some(sub.ids) != s.ids then Stepped(s, Raised(Contaminated))
      else Stepped(s.(steps := s.steps + 1, tokens := s.tokens + sub.batch.tokens), Returned(None))
    else if sub.eligible then
      Stepped(s.(ids := Some(sub.ids), warmed := if Some(sub.ids) != s.ids then 1 else s.warmed + 1), Returned(None))
    else Stepped(s.(ids := None, warmed := 0), Returned(None))
  }

  function NewRow(ticket: nat, b: Batch, measured: bool): Row
    requires |b.contexts| == |b.requestIds|
  {
    Row(ticket, b.isDecode, Firsts(SortedPairs(b)), Seconds(SortedPairs(b)), b.tokens, measured, false, None)
  }

  /** The contexts of a measured row do not follow those of the last one. */
  predicate Jumps(started: Option<real>, last: Option<seq<int>>, contexts: seq<int>) {
    started != None && last != None && contexts != Bump(last.value)
  }

  /** The end of submit: check the contexts of a measured row and issue its ticket. */
  function IssueRow(s: State, row: Row): Stepped {
    if Jumps(s.started, s.lastContexts, row.contexts) then Stepped(s, Raised(ContextJump))
    else
      Stepped(s.(lastContexts := if s.started != None then Some(row.contexts) else s.lastContexts,
                 submitted := s.submitted + 1,
                 pending := s.pending + {s.submitted},
                 records := s.records + [row]),
              Returned(Some(s.submitted)))
  }

  /** The part of submit behind its argument checks: observe, then issue. */
  function Enter(s: State, sub: Submission, row: Row): Stepped {
    var seen := Observe(s, sub);
    if seen.reply.Raised? then seen else IssueRow(seen.state, row)
  }

  /** PipelinedDecodeWindow.submit */
  function SubmitStep(s: State, b: Batch): Stepped {
    if s.result != None then Stepped(s, Returned(None))
    else if NeedsBoundary(s) then Stepped(s, Raised(CrossedEdge))
    else if b.preemptions != 0 then Stepped(s, Raised(Preemption))
    else if |b.contexts| != |b.requestIds| || exists i :: 0 <= i < |b.contexts| && b.contexts[i] < 0 then
      Stepped(s, Raised(MissingContexts))
    else Enter(s, Seen(s.cfg, b), NewRow(s.submitted, b, s.started != None))
  }

  /** PipelinedDecodeWindow.complete; the ticket leaves `pending` before the token check. */
  function CompleteStep(s: State, ticket: Option<nat>, decodeTokens: Option<int>): Stepped
    requires forall t :: t in s.pending ==> t < |s.records|
  {
    if ticket == None then Stepped(s, Returned(None))
    else if ticket.value !in s.pending then Stepped(s, Raised(UnknownTicket))
    else
      var t := ticket.value;
      var row := s.records[t];
      var popped := s.(pending := s.pending - {t});
      if row.pureDecode && decodeTokens != Some(row.tokens) then Stepped(popped, Raised(TokenMismatch))
      else
        Stepped(popped.(records := s.records[t := row.(completed := true, completedTokens := decodeTokens)]),
                Returned(None))
  }

  /** What every call needs of the state it starts from, on raising runs too. */
  predicate WellFormed(s: State) {
    && ValidConfig(s.cfg)
    && Coherent(s)
    && (forall t :: t in s.pending ==> t < |s.records|)
    && s.submitted == |s.records|
  }

  function Step(s: State, e: Event): (r: Stepped)
    requires WellFormed(s)
    ensures WellFormed(r.state)
  {
    match e
    case Boundary(now, graph) => BoundaryStep(s, now, graph)
    case Submit(b) => SubmitStep(s, b)
    case Complete(t, n) => CompleteStep(s, t, n)
  }
}
