/**
 Which scripts the overlapping loop measures, and what it reports, in what the scheduler presented: request ids and
 context lengths of the batches, what each published, and whether it ran on the captured graph.
 */
module OverlappedReadings {
  import opened Wrappers
  import opened DecodeWindow
  import opened RequestOrder
  import opened DecodeWindowTheorems
  import opened DecodeWindowReadings
  import opened DecodeWindowStretch
  import opened SerialDriver
  import opened QueueAdapter
  import opened OverlappedRuns
  import opened OverlappedSerial
  import Serial = SerialReadings
  import SerialExact

  /** A batch, and the iteration at which an edge before it is read: the first one after the batch before. */
  datatype Served = Served(edge: nat, work: Work)

  ghost function ServedOf(script: seq<Iteration>, n: nat): (served: seq<Served>)
    requires n <= |script|
    ensures forall i :: 0 <= i < |served| ==> served[i].edge < |script|
  {
    if n == 0 then []
    else ServedOf(script, n - 1)
         + (if script[n - 1].work.Some? then [Served(EdgeAt(script, n - 1), script[n - 1].work.value)] else [])
  }

  /** Every batch that ran, in order. */
  ghost function Batches(script: seq<Iteration>): (served: seq<Served>)
    ensures forall i :: 0 <= i < |served| ==> served[i].edge < |script|
  {
    ServedOf(script, |script|)
  }

  /** A decode batch of `concurrency` different requests. */
  ghost predicate FullDecode(cfg: Config, work: Work) {
    work.pure && |work.ids| == cfg.concurrency && NoRepeat(work.ids)
  }

  /** Every request has a context length, and a decode batch published a token for each. */
  ghost predicate Clear(work: Work) {
    && |work.contexts| == |work.ids| && (forall i :: 0 <= i < |work.contexts| ==> work.contexts[i] >= 0)
    && (work.pure ==> work.published == |work.ids|)
  }

  /** The `warmupSteps` batches before `p` are full decode batches of the same requests. */
  ghost predicate Ready(cfg: Config, served: seq<Served>, p: nat) {
    && cfg.warmupSteps <= p <= |served|
    && forall i :: p - cfg.warmupSteps <= i < p ==>
         FullDecode(cfg, served[i].work) && multiset(served[i].work.ids) == multiset(served[p - 1].work.ids)
  }

  ghost predicate FirstReady(cfg: Config, served: seq<Served>, o: nat) {
    Ready(cfg, served, o) && forall p :: 0 <= p < o ==> !Ready(cfg, served, p)
  }

  /** Nothing goes wrong up to `end`, and from `o` on the requests of the warmup decode, each a token further with every batch. */
  ghost predicate KeepsDecoding(cfg: Config, served: seq<Served>, o: nat, end: nat)
    requires 1 <= o < end <= |served|
  {
    && multiset(served[o].work.ids) == multiset(served[o - 1].work.ids)
    && (forall i :: 0 <= i < end ==> Clear(served[i].work))
    && (forall i :: o <= i < end ==>
          FullDecode(cfg, served[i].work) && multiset(served[i].work.ids) == multiset(served[o].work.ids))
    && (forall i :: o < i < end ==>
          Ahead(served[i].work.ids, served[i].work.contexts, served[i - 1].work.ids, served[i - 1].work.contexts, 1))
  }

  /** The iteration that reads the edge before batch `i`, if the script reaches it. */
  ghost function EdgeOf(script: seq<Iteration>, i: nat): nat {
    if i < |Batches(script)| then Batches(script)[i].edge else EdgeAt(script, |script|)
  }

  /**
   Batches `o` to `o + targetSteps` are the script's measurement: `o` is the first position with a full warmup behind it, the
   same requests decode on from there, nothing goes wrong up to the end, the script reaches the edge behind them, and the
   readings there are later and one replay a batch further on every rank.
   */
  ghost predicate Measurable(cfg: Config, script: seq<Iteration>, rank: nat, o: nat) {
    var served, end := Batches(script), o + cfg.targetSteps;
    && 1 <= o < end <= |served|
    && FirstReady(cfg, served, o) && KeepsDecoding(cfg, served, o, end)
    && var a, b := EdgeOf(script, o), EdgeOf(script, end);
       b < |script| && script[a].now < script[b].now
       && Replays(Gathered(script, a, rank), Gathered(script, b, rank), cfg.targetSteps)
  }

  // ----- as a list of feeds

  ghost function FeedFor(cfg: Config, script: seq<Iteration>, s: Served, rank: nat): Feed
    requires s.edge < |script|
  {
    Feed(script[s.edge].now, Gathered(script, s.edge, rank), WorkBatch(cfg, s.work), s.work.published, s.work.preemptions != 0)
  }

  lemma {:induction false} FeedsServed(cfg: Config, script: seq<Iteration>, n: nat, rank: nat)
    requires n <= |script|
    ensures var feeds, served := FeedsOf(cfg, script, n, rank), ServedOf(script, n);
            |feeds| == |served| && forall i :: 0 <= i < |feeds| ==> feeds[i] == FeedFor(cfg, script, served[i], rank)
  {
    if n > 0 {
      FeedsServed(cfg, script, n - 1, rank);
    }
  }

  /** The batches of the loop as feeds, and the reading behind the last of them, if there is one. */
  ghost function LoopFeeds(cfg: Config, script: seq<Iteration>, rank: nat): seq<Feed> { FeedsOf(cfg, script, |script|, rank) }

  ghost function LastNow(script: seq<Iteration>): real {
    var e := EdgeAt(script, |script|); if e < |script| then script[e].now else 0.0
  }

  ghost function LastGraph(script: seq<Iteration>, rank: nat): GraphStats {
    var e := EdgeAt(script, |script|); if e < |script| then Gathered(script, e, rank) else Ranks([])
  }

  /** Without ranks an edge never closes. */
  lemma NoRanks(s: State, now: real)
    requires WellFormed(s) && s.result == None
    ensures Measurement(s, now, Ranks([])).Err?
  {
  }

  /** The overlapping loop has the result of the serial loop on its feeds. */
  lemma LoopTask(cfg: Config, script: seq<Iteration>, rank: nat, r: WindowResult)
    requires ValidConfig(cfg)
    ensures var w := WholeLoop(StartLoop(cfg), script, rank);
            w.Ok? && w.value.window.result == Some(r) <==>
            Task(cfg, LoopFeeds(cfg, script, rank), LastNow(script), LastGraph(script, rank)) == Ok(r)
  {
    LoopIsSerial(cfg, script, rank);
    var s := DriveAll(Init(cfg), LoopFeeds(cfg, script, rank));
    if s.Ok? && EdgeAt(script, |script|) == |script| && s.value.result == None {
      NoRanks(s.value, 0.0);
    }
  }

  lemma FeedFields(cfg: Config, script: seq<Iteration>, s: Served, rank: nat)
    requires ValidConfig(cfg) && s.edge < |script|
    ensures var feed := FeedFor(cfg, script, s, rank);
            && (FullDecode(cfg, s.work) <==> FullBatch(cfg, feed.batch)) && (Clear(s.work) <==> Serial.Clear(feed))
            && feed.batch.requestIds == s.work.ids && feed.batch.contexts == s.work.contexts
            && (feed.halted <==> s.work.preemptions != 0)
  {
  }

  /** Batch by batch, the feeds say what the scheduler presented. */
  ghost predicate SameFields(cfg: Config, script: seq<Iteration>, feeds: seq<Feed>, rank: nat) {
    var served := Batches(script);
    && |feeds| == |served|
    && forall i :: 0 <= i < |served| ==>
         && (FullDecode(cfg, served[i].work) <==> FullBatch(cfg, feeds[i].batch))
         && (Clear(served[i].work) <==> Serial.Clear(feeds[i]))
         && feeds[i].batch.requestIds == served[i].work.ids && feeds[i].batch.contexts == served[i].work.contexts
         && (feeds[i].halted <==> served[i].work.preemptions != 0)
         && feeds[i].now == script[served[i].edge].now && feeds[i].graph == Gathered(script, served[i].edge, rank)
  }

  lemma LoopFields(cfg: Config, script: seq<Iteration>, rank: nat)
    requires ValidConfig(cfg)
    ensures SameFields(cfg, script, LoopFeeds(cfg, script, rank), rank)
  {
    var feeds, served := LoopFeeds(cfg, script, rank), Batches(script);
    FeedsServed(cfg, script, |script|, rank);
    forall i | 0 <= i < |served|
      ensures FullDecode(cfg, served[i].work) <==> FullBatch(cfg, feeds[i].batch)
      ensures Clear(served[i].work) <==> Serial.Clear(feeds[i])
      ensures feeds[i] == FeedFor(cfg, script, served[i], rank)
    {
      FeedFields(cfg, script, served[i], rank);
    }
  }

  lemma ReadySame(cfg: Config, script: seq<Iteration>, feeds: seq<Feed>, rank: nat, p: nat)
    requires SameFields(cfg, script, feeds, rank)
    ensures Ready(cfg, Batches(script), p) <==> Serial.Ready(cfg, feeds, p)
  {
  }

  lemma FirstReadySame(cfg: Config, script: seq<Iteration>, feeds: seq<Feed>, rank: nat, o: nat)
    requires SameFields(cfg, script, feeds, rank)
    ensures FirstReady(cfg, Batches(script), o) <==> Serial.FirstReady(cfg, feeds, o)
  {
    forall p | 0 <= p <= o ensures Ready(cfg, Batches(script), p) <==> Serial.Ready(cfg, feeds, p) {
      ReadySame(cfg, script, feeds, rank, p);
    }
  }

  lemma KeepsSame(cfg: Config, script: seq<Iteration>, feeds: seq<Feed>, rank: nat, o: nat, end: nat)
    requires SameFields(cfg, script, feeds, rank) && 1 <= o < end <= |feeds|
    ensures KeepsDecoding(cfg, Batches(script), o, end) <==> Serial.KeepsDecoding(cfg, feeds, o, end)
  {
  }

  /** The readings at the two edges, as the serial loop has them. */
  lemma EdgesSame(cfg: Config, script: seq<Iteration>, feeds: seq<Feed>, rank: nat, o: nat, end: nat, steps: int)
    requires SameFields(cfg, script, feeds, rank) && o < end <= |feeds|
    ensures var a, b, now, graph := EdgeOf(script, o), EdgeOf(script, end), SerialExact.NowAt(feeds, end, LastNow(script)),
                                    SerialExact.GraphAt(feeds, end, LastGraph(script, rank));
            && a < |script| && feeds[o].now == script[a].now && feeds[o].graph == Gathered(script, a, rank)
            && (b < |script| ==> now == script[b].now && graph == Gathered(script, b, rank))
            && (b >= |script| ==> !Replays(feeds[o].graph, graph, steps))
  {
  }

  lemma MeasurableSame(cfg: Config, script: seq<Iteration>, rank: nat, o: nat)
    requires ValidConfig(cfg)
    ensures Measurable(cfg, script, rank, o) <==>
            Serial.Measurable(cfg, LoopFeeds(cfg, script, rank), o, LastNow(script), LastGraph(script, rank))
  {
    var feeds, end := LoopFeeds(cfg, script, rank), o + cfg.targetSteps;
    LoopFields(cfg, script, rank);
    FirstReadySame(cfg, script, feeds, rank, o);
    if 1 <= o < end <= |feeds| {
      KeepsSame(cfg, script, feeds, rank, o, end);
      EdgesSame(cfg, script, feeds, rank, o, end, cfg.targetSteps);
    }
  }

  // ----- every script

  /**
   The overlapping loop raises nothing and has a result if and only if the script has a measurement and no batch reports a
   preemption.
   */
  lemma LoopExact(cfg: Config, script: seq<Iteration>, rank: nat)
    requires ValidConfig(cfg)
    ensures var w := WholeLoop(StartLoop(cfg), script, rank);
            w.Ok? && w.value.window.result.Some? <==>
            (exists o :: Measurable(cfg, script, rank, o))
            && forall i :: 0 <= i < |Batches(script)| ==> Batches(script)[i].work.preemptions == 0
  {
    var w, feeds := WholeLoop(StartLoop(cfg), script, rank), LoopFeeds(cfg, script, rank);
    var task := Task(cfg, feeds, LastNow(script), LastGraph(script, rank));
    LoopFields(cfg, script, rank);
    Serial.TaskExact(cfg, feeds, LastNow(script), LastGraph(script, rank));
    if w.Ok? && w.value.window.result.Some? {
      LoopTask(cfg, script, rank, w.value.window.result.value);
    }
    if task.Ok? {
      LoopTask(cfg, script, rank, task.value);
    }
    if o :| Serial.Measurable(cfg, feeds, o, LastNow(script), LastGraph(script, rank)) {
      MeasurableSame(cfg, script, rank, o);
    }
    if o :| Measurable(cfg, script, rank, o) {
      MeasurableSame(cfg, script, rank, o);
    }
  }

  /** A result of the overlapping loop is that of the script's measurement. */
  lemma LoopReports(cfg: Config, script: seq<Iteration>, rank: nat, r: WindowResult) returns (o: nat)
    requires ValidConfig(cfg) && WholeLoop(StartLoop(cfg), script, rank).Ok?
    requires WholeLoop(StartLoop(cfg), script, rank).value.window.result == Some(r)
    ensures Measurable(cfg, script, rank, o)
    ensures ReportsRequests(cfg, r, Batches(script)[o].work.ids, Batches(script)[o].work.contexts)
    ensures var a, b := EdgeOf(script, o), EdgeOf(script, o + cfg.targetSteps);
            Serial.ReportsReadings(cfg, script[a].now, Gathered(script, a, rank), script[b].now, r)
  {
    var feeds := LoopFeeds(cfg, script, rank);
    LoopTask(cfg, script, rank, r);
    o := Serial.TaskReports(cfg, feeds, LastNow(script), LastGraph(script, rank));
    MeasurableSame(cfg, script, rank, o);
    LoopFields(cfg, script, rank);
    EdgesSame(cfg, script, feeds, rank, o, o + cfg.targetSteps, cfg.targetSteps);
  }
}
