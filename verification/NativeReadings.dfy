/**
 Which scripts the native loop measures, and what it reports, in what the engine presented at each step: request ids,
 context lengths before the step, token counts, preemptions and readings.
 */
module NativeReadings {
  import opened Wrappers
  import opened DecodeWindow
  import opened RequestOrder
  import opened DecodeWindowReadings
  import opened DecodeWindowStretch
  import opened SerialDriver
  import opened NativeDriver
  import Serial = SerialReadings

  /** A decode step of one token for each of `concurrency` different requests, with nothing left to admit. */
  ghost predicate FullDecode(cfg: Config, step: EngineStep) {
    && step.numTokens == -cfg.concurrency && step.admitted
    && |step.ids| == cfg.concurrency && NoRepeat(step.ids)
  }

  /** No request was preempted, every request has a context length, and a decode step published all its tokens. */
  ghost predicate Clear(step: EngineStep) {
    && step.preemptions == 0 && |step.contexts| == |step.ids| && (forall i :: 0 <= i < |step.contexts| ==> step.contexts[i] >= 0)
    && (step.numTokens < 0 ==> step.published == -step.numTokens)
  }

  /** The `warmupSteps` steps before `p` are full decode steps of the same requests. */
  ghost predicate Ready(cfg: Config, script: seq<EngineStep>, p: nat) {
    && cfg.warmupSteps <= p <= |script|
    && forall i :: p - cfg.warmupSteps <= i < p ==>
         FullDecode(cfg, script[i]) && multiset(script[i].ids) == multiset(script[p - 1].ids)
  }

  ghost predicate FirstReady(cfg: Config, script: seq<EngineStep>, o: nat) {
    Ready(cfg, script, o) && forall p :: 0 <= p < o ==> !Ready(cfg, script, p)
  }

  /** Nothing goes wrong up to `end`, and from `o` on the requests of the warmup decode, each a token further with every step. */
  ghost predicate KeepsDecoding(cfg: Config, script: seq<EngineStep>, o: nat, end: nat)
    requires 1 <= o < end <= |script|
  {
    && multiset(script[o].ids) == multiset(script[o - 1].ids)
    && (forall i :: 0 <= i < end ==> Clear(script[i]))
    && (forall i :: o <= i < end ==> FullDecode(cfg, script[i]) && multiset(script[i].ids) == multiset(script[o].ids))
    && (forall i :: o < i < end ==>
          Ahead(script[i].ids, script[i].contexts, script[i - 1].ids, script[i - 1].contexts, 1))
  }

  ghost function NowAt(script: seq<EngineStep>, i: nat, now: real): real { if i < |script| then script[i].now else now }

  ghost function GraphAt(script: seq<EngineStep>, i: nat, graph: GraphStats): GraphStats {
    if i < |script| then script[i].graph else graph
  }

  /**
   Steps `o` to `o + targetSteps` are the script's measurement: `o` is the first position with a full warmup behind it, the
   same requests decode on from there, nothing goes wrong up to the end, and the readings there are later and one replay a
   step further on every rank.
   */
  ghost predicate Measurable(cfg: Config, script: seq<EngineStep>, o: nat, now: real, graph: GraphStats) {
    var end := o + cfg.targetSteps;
    && 1 <= o < end <= |script|
    && FirstReady(cfg, script, o) && KeepsDecoding(cfg, script, o, end)
    && script[o].now < NowAt(script, end, now) && Replays(script[o].graph, GraphAt(script, end, graph), cfg.targetSteps)
  }

  // ----- as a list of feeds

  lemma FeedFields(cfg: Config, step: EngineStep, strictBatch: bool)
    requires ValidConfig(cfg)
    ensures var feed := FeedOf(step, strictBatch);
            && (FullDecode(cfg, step) <==> FullBatch(cfg, feed.batch)) && (Clear(step) <==> Serial.Clear(feed))
            && feed.batch.requestIds == step.ids && feed.batch.contexts == step.contexts
            && feed.now == step.now && feed.graph == step.graph
            && (feed.halted <==> strictBatch && step.preemptions != 0)
  {
  }

  lemma ReadySame(cfg: Config, script: seq<EngineStep>, strictBatch: bool, p: nat)
    requires ValidConfig(cfg)
    ensures Ready(cfg, script, p) <==> Serial.Ready(cfg, Feeds(script, strictBatch), p)
  {
    forall i | 0 <= i < |script|
      ensures FullDecode(cfg, script[i]) <==> FullBatch(cfg, Feeds(script, strictBatch)[i].batch)
      ensures Feeds(script, strictBatch)[i].batch.requestIds == script[i].ids
    {
      FeedFields(cfg, script[i], strictBatch);
    }
  }

  lemma FirstReadySame(cfg: Config, script: seq<EngineStep>, strictBatch: bool, o: nat)
    requires ValidConfig(cfg)
    ensures FirstReady(cfg, script, o) <==> Serial.FirstReady(cfg, Feeds(script, strictBatch), o)
  {
    forall p | 0 <= p <= o ensures Ready(cfg, script, p) <==> Serial.Ready(cfg, Feeds(script, strictBatch), p) {
      ReadySame(cfg, script, strictBatch, p);
    }
  }

  lemma KeepsSame(cfg: Config, script: seq<EngineStep>, strictBatch: bool, o: nat, end: nat)
    requires ValidConfig(cfg) && 1 <= o < end <= |script|
    ensures KeepsDecoding(cfg, script, o, end) <==> Serial.KeepsDecoding(cfg, Feeds(script, strictBatch), o, end)
  {
    var feeds := Feeds(script, strictBatch);
    forall i | 0 <= i < |script|
      ensures FullDecode(cfg, script[i]) <==> FullBatch(cfg, feeds[i].batch)
      ensures Clear(script[i]) <==> Serial.Clear(feeds[i])
      ensures feeds[i].batch.requestIds == script[i].ids && feeds[i].batch.contexts == script[i].contexts
    {
      FeedFields(cfg, script[i], strictBatch);
    }
  }

  lemma MeasurableSame(cfg: Config, script: seq<EngineStep>, strictBatch: bool, o: nat, now: real, graph: GraphStats)
    requires ValidConfig(cfg)
    ensures Measurable(cfg, script, o, now, graph) <==> Serial.Measurable(cfg, Feeds(script, strictBatch), o, now, graph)
  {
    FirstReadySame(cfg, script, strictBatch, o);
    if 1 <= o < o + cfg.targetSteps <= |script| {
      KeepsSame(cfg, script, strictBatch, o, o + cfg.targetSteps);
    }
  }

  // ----- every script

  /**
   The native loop returns a result if and only if the script has a measurement, and, in strict-batch runs, no step
   reports a preemption.
   */
  lemma TaskExact(cfg: Config, script: seq<EngineStep>, strictBatch: bool, now: real, graph: GraphStats)
    requires ValidConfig(cfg)
    ensures Task(cfg, Feeds(script, strictBatch), now, graph).Ok? <==>
            (exists o :: Measurable(cfg, script, o, now, graph))
            && (strictBatch ==> forall i :: 0 <= i < |script| ==> script[i].preemptions == 0)
  {
    var feeds := Feeds(script, strictBatch);
    Serial.TaskExact(cfg, feeds, now, graph);
    forall i | 0 <= i < |script| ensures feeds[i].halted <==> strictBatch && script[i].preemptions != 0 {
      FeedFields(cfg, script[i], strictBatch);
    }
    if o :| Serial.Measurable(cfg, feeds, o, now, graph) {
      MeasurableSame(cfg, script, strictBatch, o, now, graph);
    }
    if o :| Measurable(cfg, script, o, now, graph) {
      MeasurableSame(cfg, script, strictBatch, o, now, graph);
    }
  }

  /**
   A result of the native loop is that of the script's measurement: its requests, each with the context length before the
   first measured step, and the readings before that step and at the end.
   */
  lemma TaskReports(cfg: Config, script: seq<EngineStep>, strictBatch: bool, now: real, graph: GraphStats) returns (o: nat)
    requires ValidConfig(cfg) && Task(cfg, Feeds(script, strictBatch), now, graph).Ok?
    ensures Measurable(cfg, script, o, now, graph)
    ensures var r := Task(cfg, Feeds(script, strictBatch), now, graph).value;
            ReportsRequests(cfg, r, script[o].ids, script[o].contexts)
            && Serial.ReportsReadings(cfg, script[o].now, script[o].graph, NowAt(script, o + cfg.targetSteps, now), r)
  {
    o := Serial.TaskReports(cfg, Feeds(script, strictBatch), now, graph);
    MeasurableSame(cfg, script, strictBatch, o, now, graph);
    FeedFields(cfg, script[o], strictBatch);
  }
}
