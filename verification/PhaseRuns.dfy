/**
 scheduler_phase_metrics of efficiency/metrics.py over the reals, up to the final summaries: prefill and
 decode runs, switches, decision counts, decode batches and prefill waits of a list of scheduler steps.
 The reference is the run-length grouping of the steps with idle ones dropped.
 */
module PhaseRuns {
  import opened Wrappers
  import opened Sequences

  datatype Phase = Prefill | Decode

  datatype Wait = Wait(partial: bool, seconds: real)

  /** `phase` is absent on an idle step. */
  datatype Step = Step(time: real, phase: Option<Phase>, reason: string, decodeBatch: int, waits: seq<Wait>)

  datatype Metrics = Metrics(
    prefillRuns: seq<real>, decodeRuns: seq<real>, switches: nat, reasons: map<string, nat>,
    batches: seq<int>, newWaits: seq<real>, partialWaits: seq<real>)

  datatype Error = NotMonotonic

  // ----- the reference

  /** A busy step and the time since the previous observation, busy or idle. */
  datatype Spell = Spell(phase: Phase, time: real, step: Step)

  ghost function Before(steps: seq<Step>): real { if steps == [] then 0.0 else steps[|steps| - 1].time }

  ghost function Busy(steps: seq<Step>): seq<Spell> {
    if steps == [] then []
    else
      var front, last := steps[..|steps| - 1], steps[|steps| - 1];
      if last.phase == None then Busy(front)
      else Busy(front) + [Spell(last.phase.value, last.time - Before(front), last)]
  }

  ghost function IdleTime(steps: seq<Step>): real {
    if steps == [] then 0.0
    else
      var front, last := steps[..|steps| - 1], steps[|steps| - 1];
      IdleTime(front) + (if last.phase == None then last.time - Before(front) else 0.0)
  }

  ghost predicate Monotonic(steps: seq<Step>) {
    && (forall i :: 0 <= i < |steps| ==> steps[i].time >= 0.0)
    && (forall i, j :: 0 <= i < j < |steps| ==> steps[i].time <= steps[j].time)
  }

  /** One more spell: it joins the last group of its phase or starts a new one. */
  ghost function Append(gs: seq<seq<Spell>>, spell: Spell): (r: seq<seq<Spell>>)
    requires forall i :: 0 <= i < |gs| ==> gs[i] != []
    ensures forall i :: 0 <= i < |r| ==> r[i] != []
  {
    if gs != [] && gs[|gs| - 1][0].phase == spell.phase then gs[..|gs| - 1] + [gs[|gs| - 1] + [spell]]
    else gs + [[spell]]
  }

  /** Maximal groups of neighbouring spells with one phase. */
  ghost function Groups(spells: seq<Spell>): (r: seq<seq<Spell>>)
    ensures forall i :: 0 <= i < |r| ==> r[i] != []
  {
    if spells == [] then [] else Append(Groups(spells[..|spells| - 1]), spells[|spells| - 1])
  }

  ghost function Total(spells: seq<Spell>): real {
    if spells == [] then 0.0 else Total(spells[..|spells| - 1]) + spells[|spells| - 1].time
  }

  /** The durations of the groups of one phase, in order. */
  ghost function RunsOf(groups: seq<seq<Spell>>, p: Phase): seq<real>
    requires forall i :: 0 <= i < |groups| ==> groups[i] != []
  {
    if groups == [] then []
    else
      var last := groups[|groups| - 1];
      RunsOf(groups[..|groups| - 1], p) + (if last[0].phase == p then [Total(last)] else [])
  }

  ghost predicate Grouped(groups: seq<seq<Spell>>) {
    && (forall i :: 0 <= i < |groups| ==> Uniform(groups[i]))
    && (forall i :: 0 <= i < |groups| - 1 ==> groups[i][0].phase != groups[i + 1][0].phase)
  }

  ghost predicate Uniform(group: seq<Spell>) {
    group != [] && forall j :: 0 <= j < |group| ==> group[j].phase == group[0].phase
  }

  lemma GrowLast(gs: seq<seq<Spell>>, spell: Spell)
    requires gs != [] && Grouped(gs) && gs[|gs| - 1][0].phase == spell.phase
    ensures var gs' := gs[..|gs| - 1] + [gs[|gs| - 1] + [spell]];
            Grouped(gs') && Join(gs') == Join(gs) + [spell] && gs'[|gs'| - 1][0].phase == spell.phase
  {
    var front, last := gs[..|gs| - 1], gs[|gs| - 1];
    JoinSnoc(front, last + [spell]);
    assert Join(front) + (last + [spell]) == Join(front) + last + [spell];
    assert Uniform(last) && Uniform(last + [spell]);
  }

  lemma StartGroup(gs: seq<seq<Spell>>, spell: Spell)
    requires Grouped(gs) && (gs != [] ==> gs[|gs| - 1][0].phase != spell.phase)
    ensures Grouped(gs + [[spell]]) && Join(gs + [[spell]]) == Join(gs) + [spell]
  {
    JoinSnoc(gs, [spell]);
    GroupedSnoc(gs, [spell]);
  }

  lemma GroupedSnoc(gs: seq<seq<Spell>>, group: seq<Spell>)
    requires Grouped(gs) && Uniform(group) && (gs != [] ==> gs[|gs| - 1][0].phase != group[0].phase)
    ensures Grouped(gs + [group])
  {
    var gs' := gs + [group];
    assert forall i :: 0 <= i < |gs| ==> gs'[i] == gs[i];
    assert forall i :: 0 <= i < |gs'| ==> Uniform(gs'[i]);
  }

  /** The groups are the run-length grouping: uniform, alternating, and together the spells in order. */
  lemma {:induction false} GroupsAreRuns(spells: seq<Spell>)
    ensures Grouped(Groups(spells)) && Join(Groups(spells)) == spells
  {
    if spells != [] {
      var front, last := spells[..|spells| - 1], spells[|spells| - 1];
      GroupsAreRuns(front);
      var gs: seq<seq<Spell>> := Groups(front);
      if gs != [] && gs[|gs| - 1][0].phase == last.phase {
        GrowLast(gs, last);
      } else {
        StartGroup(gs, last);
      }
      assert spells == front + [last];
    }
  }

  /** Prefill runs `p` and decode runs `d` of `n` alternating groups; `last` is 1 if the last group is prefill. */
  ghost predicate Alternating(n: nat, p: nat, d: nat, last: int) {
    p + d == n && (n % 2 == 0 ==> p == d) && (n % 2 == 1 ==> p - d == 2 * last - 1)
  }

  /** One more group, of the other phase. */
  lemma Alternate(n: nat, p: nat, d: nat, last: int, next: int)
    requires Alternating(n, p, d, last) && 0 <= next <= 1 && 0 <= last <= 1 && (n > 0 ==> next != last)
    ensures Alternating(n + 1, p + next, d + 1 - next, next)
  {
  }

  ghost function IsPrefill(groups: seq<seq<Spell>>): int
    requires forall i :: 0 <= i < |groups| ==> groups[i] != []
  {
    if groups != [] && groups[|groups| - 1][0].phase == Prefill then 1 else 0
  }

  lemma {:induction false} Alternation(groups: seq<seq<Spell>>)
    requires Grouped(groups)
    ensures Alternating(|groups|, |RunsOf(groups, Prefill)|, |RunsOf(groups, Decode)|, IsPrefill(groups))
  {
    if groups != [] {
      var front := groups[..|groups| - 1];
      Alternation(front);
      RunsLast(groups, Prefill);
      RunsLast(groups, Decode);
      assert |front| > 0 ==> groups[|front| - 1][0].phase != groups[|front|][0].phase;
      Alternate(|front|, |RunsOf(front, Prefill)|, |RunsOf(front, Decode)|, IsPrefill(front), IsPrefill(groups));
    }
  }

  /** Alternation: the two phases' run counts differ by at most one, equal for an even number of groups. */
  lemma RunCounts(groups: seq<seq<Spell>>)
    requires Grouped(groups)
    ensures |RunsOf(groups, Prefill)| + |RunsOf(groups, Decode)| == |groups|
    ensures -1 <= |RunsOf(groups, Prefill)| - |RunsOf(groups, Decode)| <= 1
    ensures |groups| % 2 == 0 ==> |RunsOf(groups, Prefill)| == |RunsOf(groups, Decode)|
    ensures |groups| % 2 == 1 ==>
              |RunsOf(groups, groups[|groups| - 1][0].phase)| ==
              1 + |RunsOf(groups, if groups[|groups| - 1][0].phase == Prefill then Decode else Prefill)|
  {
    Alternation(groups);
  }

  ghost function Sum(xs: seq<real>): real { if xs == [] then 0.0 else Sum(xs[..|xs| - 1]) + xs[|xs| - 1] }

  lemma {:induction false} TotalConcat(a: seq<Spell>, b: seq<Spell>)
    ensures Total(a + b) == Total(a) + Total(b)
  {
    if b == [] {
      assert a + b == a;
    } else {
      assert (a + b)[..|a + b| - 1] == a + b[..|b| - 1];
      TotalConcat(a, b[..|b| - 1]);
    }
  }

  lemma SumSnoc(xs: seq<real>, x: real)
    ensures Sum(xs + [x]) == Sum(xs) + x
  {
    assert (xs + [x])[..|xs|] == xs;
  }

  lemma {:induction false} RunTotals(groups: seq<seq<Spell>>)
    requires forall i :: 0 <= i < |groups| ==> groups[i] != []
    ensures Sum(RunsOf(groups, Prefill)) + Sum(RunsOf(groups, Decode)) == Total(Join(groups))
  {
    if groups != [] {
      var front, last := groups[..|groups| - 1], groups[|groups| - 1];
      RunTotals(front);
      TotalConcat(Join(front), last);
      SumSnoc(RunsOf(front, last[0].phase), Total(last));
      assert RunsOf(groups, last[0].phase) == RunsOf(front, last[0].phase) + [Total(last)];
      var other := if last[0].phase == Prefill then Decode else Prefill;
      assert RunsOf(groups, other) == RunsOf(front, other);
    }
  }

  /** Busy and idle time together make up the time of the last observation. */
  lemma {:induction false} BusyTime(steps: seq<Step>)
    ensures Total(Busy(steps)) == Before(steps) - IdleTime(steps)
  {
    if steps != [] {
      var front := steps[..|steps| - 1];
      BusyTime(front);
      assert steps[|steps| - 1].phase != None ==> Busy(steps)[..|Busy(steps)| - 1] == Busy(front);
    }
  }

  ghost function Reasons(spells: seq<Spell>): map<string, nat> {
    if spells == [] then map[]
    else
      var before, r := Reasons(spells[..|spells| - 1]), spells[|spells| - 1].step.reason;
      before[r := (if r in before then before[r] else 0) + 1]
  }

  ghost function SumOver(counts: map<string, nat>): nat
    decreases |counts|
  {
    if counts == map[] then 0
    else
      var k :| k in counts;
      RemoveSmaller(counts, k);
      counts[k] + SumOver(counts - {k})
  }

  lemma RemoveSmaller(counts: map<string, nat>, k: string)
    requires k in counts
    ensures |counts - {k}| < |counts|
  {
    assert (counts - {k}).Keys == counts.Keys - {k};
    assert |(counts - {k}).Keys| == |counts.Keys| - 1;
  }

  lemma {:induction false} SumOverSplit(counts: map<string, nat>, k: string)
    requires k in counts
    ensures SumOver(counts) == counts[k] + SumOver(counts - {k})
    decreases |counts|
  {
    var p :| p in counts && SumOver(counts) == counts[p] + SumOver(counts - {p});
    if p != k {
      RemoveSmaller(counts, p);
      SumOverSplit(counts - {p}, k);
      RemoveSmaller(counts, k);
      SumOverSplit(counts - {k}, p);
      assert counts - {p} - {k} == counts - {k} - {p};
    }
  }

  /** Every busy step is one decision. */
  lemma {:induction false} DecisionCount(spells: seq<Spell>)
    ensures SumOver(Reasons(spells)) == |spells|
  {
    if spells != [] {
      var before, r := Reasons(spells[..|spells| - 1]), spells[|spells| - 1].step.reason;
      DecisionCount(spells[..|spells| - 1]);
      var after := Reasons(spells);
      SumOverSplit(after, r);
      if r in before {
        SumOverSplit(before, r);
        assert after - {r} == before - {r};
      } else {
        assert after - {r} == before;
      }
    }
  }

  ghost function Batches(spells: seq<Spell>): seq<int> {
    if spells == [] then []
    else
      var last := spells[|spells| - 1];
      Batches(spells[..|spells| - 1]) + (if last.phase == Decode then [last.step.decodeBatch] else [])
  }

  ghost function Waits(waits: seq<Wait>, partial: bool): seq<real> {
    if waits == [] then []
    else
      var last := waits[|waits| - 1];
      Waits(waits[..|waits| - 1], partial) + (if last.partial == partial then [last.seconds] else [])
  }

  ghost function AllWaits(spells: seq<Spell>): seq<Wait> {
    if spells == [] then [] else AllWaits(spells[..|spells| - 1]) + spells[|spells| - 1].step.waits
  }

  // ----- the accumulating loop

  datatype Acc = Acc(previous: real, phase: Option<Phase>, duration: real, m: Metrics)

  /** All groups but the last are closed runs; the last one is open. */
  ghost predicate InGroups(a: Acc, gs: seq<seq<Spell>>)
    requires forall i :: 0 <= i < |gs| ==> gs[i] != []
  {
    if gs == [] then
      a.phase == None && a.duration == 0.0 && a.m.switches == 0 && a.m.prefillRuns == [] && a.m.decodeRuns == []
    else
      var front, last := gs[..|gs| - 1], gs[|gs| - 1];
      && a.phase == Some(last[0].phase) && a.duration == Total(last) && a.m.switches == |front|
      && a.m.prefillRuns == RunsOf(front, Prefill) && a.m.decodeRuns == RunsOf(front, Decode)
  }

  /** The counters and lists of the busy steps. */
  ghost predicate Counts(m: Metrics, spells: seq<Spell>) {
    && m.reasons == Reasons(spells) && m.batches == Batches(spells)
    && m.newWaits == Waits(AllWaits(spells), false) && m.partialWaits == Waits(AllWaits(spells), true)
  }

  ghost predicate Tallied(a: Acc, steps: seq<Step>) {
    a.previous == Before(steps) && InGroups(a, Groups(Busy(steps))) && Counts(a.m, Busy(steps))
  }

  /** `durations[phase].append(duration)` */
  function CloseRun(m: Metrics, phase: Phase, duration: real): Metrics {
    if phase == Prefill then m.(prefillRuns := m.prefillRuns + [duration])
    else m.(decodeRuns := m.decodeRuns + [duration])
  }

  lemma {:induction false} WaitsConcat(a: seq<Wait>, b: seq<Wait>, partial: bool)
    ensures Waits(a + b, partial) == Waits(a, partial) + Waits(b, partial)
  {
    if b == [] {
      assert a + b == a;
    } else {
      assert (a + b)[..|a + b| - 1] == a + b[..|b| - 1];
      WaitsConcat(a, b[..|b| - 1], partial);
    }
  }

  /** The inner loop over a step's prefill waits. */
  method AddWaits(m: Metrics, waits: seq<Wait>) returns (m': Metrics)
    ensures m' == m.(newWaits := m.newWaits + Waits(waits, false), partialWaits := m.partialWaits + Waits(waits, true))
  {
    m' := m;
    var i := 0;
    while i < |waits|
      invariant 0 <= i <= |waits|
      invariant m' == m.(newWaits := m.newWaits + Waits(waits[..i], false), partialWaits := m.partialWaits + Waits(waits[..i], true))
    {
      assert waits[..i + 1][..i] == waits[..i];
      if waits[i].partial {
        m' := m'.(partialWaits := m'.partialWaits + [waits[i].seconds]);
      } else {
        m' := m'.(newWaits := m'.newWaits + [waits[i].seconds]);
      }
      i := i + 1;
    }
    assert waits[..i] == waits;
  }

  lemma BusySnoc(steps: seq<Step>, step: Step)
    requires step.phase.Some?
    ensures Busy(steps + [step]) == Busy(steps) + [Spell(step.phase.value, step.time - Before(steps), step)]
  {
    assert (steps + [step])[..|steps|] == steps;
  }

  /** The run bookkeeping of one busy step: close the run when the phase changes, then extend. */
  method ExtendRun(a: Acc, current: Phase, now: real, ghost gs: seq<seq<Spell>>, ghost spell: Spell) returns (a': Acc)
    requires (forall i :: 0 <= i < |gs| ==> gs[i] != []) && InGroups(a, gs)
    requires spell.phase == current && spell.time == now - a.previous
    ensures a'.m == a.m.(prefillRuns := a'.m.prefillRuns, decodeRuns := a'.m.decodeRuns, switches := a'.m.switches)
    ensures a'.previous == now && InGroups(a', Append(gs, spell))
  {
    var m, duration := a.m, a.duration;
    if a.phase != None && current != a.phase.value {
      m := CloseRun(m, a.phase.value, duration);
      duration := 0.0;
      m := m.(switches := m.switches + 1);
    }
    if gs != [] {
      TotalConcat(gs[|gs| - 1], [spell]);
    }
    assert [spell][..0] == [] && Total([spell]) == spell.time;
    duration := duration + (now - a.previous);
    a' := Acc(now, Some(current), duration, m);
  }

  /** The decision count, decode batch and waits of a busy step. */
  method CountStep(m: Metrics, step: Step, ghost spells: seq<Spell>, ghost spell: Spell) returns (m': Metrics)
    requires Counts(m, spells) && step.phase == Some(spell.phase) && spell.step == step
    ensures Counts(m', spells + [spell])
    ensures m'.prefillRuns == m.prefillRuns && m'.decodeRuns == m.decodeRuns && m'.switches == m.switches
  {
    CountsNext(spells, spell);
    m' := m.(reasons := m.reasons[step.reason := (if step.reason in m.reasons then m.reasons[step.reason] else 0) + 1]);
    if step.phase.value == Decode {
      m' := m'.(batches := m'.batches + [step.decodeBatch]);
    }
    m' := AddWaits(m', step.waits);
  }

  lemma CountsNext(spells: seq<Spell>, spell: Spell)
    ensures Reasons(spells + [spell]) ==
            var before, r := Reasons(spells), spell.step.reason;
            before[r := (if r in before then before[r] else 0) + 1]
    ensures Batches(spells + [spell]) ==
            Batches(spells) + (if spell.phase == Decode then [spell.step.decodeBatch] else [])
    ensures Waits(AllWaits(spells + [spell]), false) == Waits(AllWaits(spells), false) + Waits(spell.step.waits, false)
    ensures Waits(AllWaits(spells + [spell]), true) == Waits(AllWaits(spells), true) + Waits(spell.step.waits, true)
  {
    assert (spells + [spell])[..|spells|] == spells;
    WaitsConcat(AllWaits(spells), spell.step.waits, false);
    WaitsConcat(AllWaits(spells), spell.step.waits, true);
  }

  lemma GroupsSnoc(spells: seq<Spell>, spell: Spell)
    ensures Groups(spells + [spell]) == Append(Groups(spells), spell)
  {
    assert (spells + [spell])[..|spells|] == spells;
  }

  /** One iteration over a busy step. */
  method BusyStep(a: Acc, step: Step, ghost steps: seq<Step>) returns (a': Acc)
    requires Tallied(a, steps) && step.phase.Some?
    ensures Tallied(a', steps + [step])
  {
    ghost var spells := Busy(steps);
    ghost var spell := Spell(step.phase.value, step.time - Before(steps), step);
    BusySnoc(steps, step);
    GroupsSnoc(spells, spell);
    a' := ExtendRun(a, step.phase.value, step.time, Groups(spells), spell);
    var m := CountStep(a'.m, step, spells, spell);
    a' := a'.(m := m);
  }

  lemma IdleStep(a: Acc, step: Step, steps: seq<Step>)
    requires Tallied(a, steps) && step.phase == None
    ensures Tallied(a.(previous := step.time), steps + [step])
  {
    assert (steps + [step])[..|steps|] == steps;
    assert Busy(steps + [step]) == Busy(steps);
  }

  /** What the whole loop reports. */
  ghost predicate Reports(m: Metrics, steps: seq<Step>) {
    var spells := Busy(steps);
    var gs := Groups(spells);
    && m.prefillRuns == RunsOf(gs, Prefill) && m.decodeRuns == RunsOf(gs, Decode)
    && (gs != [] ==> |m.prefillRuns| + |m.decodeRuns| == m.switches + 1)
    && (gs == [] ==> m.switches == 0)
    && -1 <= |m.prefillRuns| - |m.decodeRuns| <= 1
    && Sum(m.prefillRuns) + Sum(m.decodeRuns) == Before(steps) - IdleTime(steps)
    && Counts(m, spells) && SumOver(m.reasons) == |spells|
  }

  lemma RunFacts(steps: seq<Step>)
    ensures var gs := Groups(Busy(steps));
            && |RunsOf(gs, Prefill)| + |RunsOf(gs, Decode)| == |gs|
            && -1 <= |RunsOf(gs, Prefill)| - |RunsOf(gs, Decode)| <= 1
            && Sum(RunsOf(gs, Prefill)) + Sum(RunsOf(gs, Decode)) == Before(steps) - IdleTime(steps)
            && SumOver(Reasons(Busy(steps))) == |Busy(steps)|
  {
    GroupsAreRuns(Busy(steps));
    RunCounts(Groups(Busy(steps)));
    RunTotals(Groups(Busy(steps)));
    BusyTime(steps);
    DecisionCount(Busy(steps));
  }

  /** One iteration of the loop. */
  method TakeStep(a: Acc, step: Step, ghost seen: seq<Step>) returns (ok: bool, a': Acc)
    requires Tallied(a, seen) && Monotonic(seen)
    ensures ok <==> Monotonic(seen + [step])
    ensures ok ==> Tallied(a', seen + [step])
  {
    if step.time < a.previous {
      NotMonotonicNext(seen, step);
      return false, a;
    }
    MonotonicNext(seen, step);
    ok := true;
    if step.phase == None {
      IdleStep(a, step, seen);
      a' := a.(previous := step.time);
    } else {
      a' := BusyStep(a, step, seen);
    }
  }

  /** Iteration `n` of the loop. */
  method TakeStepAt(a: Acc, steps: seq<Step>, n: nat) returns (ok: bool, a': Acc)
    requires n < |steps| && Tallied(a, steps[..n]) && Monotonic(steps[..n])
    ensures if ok then Tallied(a', steps[..n + 1]) && Monotonic(steps[..n + 1]) else !Monotonic(steps)
  {
    assert steps[..n + 1] == steps[..n] + [steps[n]];
    ok, a' := TakeStep(a, steps[n], steps[..n]);
    if !ok {
      MonotonicPrefix(steps, n + 1);
    }
  }

  /** The loop over all steps. */
  method Accumulate(steps: seq<Step>) returns (ok: bool, a: Acc)
    ensures ok <==> Monotonic(steps)
    ensures ok ==> Tallied(a, steps)
  {
    a := Acc(0.0, None, 0.0, Metrics([], [], 0, map[], [], [], []));
    var n := 0;
    while n < |steps|
      invariant 0 <= n <= |steps|
      invariant Tallied(a, steps[..n]) && Monotonic(steps[..n])
    {
      ok, a := TakeStepAt(a, steps, n);
      if !ok {
        return;
      }
      n := n + 1;
    }
    assert steps[..n] == steps;
    ok := true;
  }

  /** scheduler_phase_metrics, before the summaries. It raises exactly when the times are not monotonic from 0. */
  method PhaseMetrics(steps: seq<Step>) returns (r: Result<Metrics, Error>)
    ensures r.Ok? <==> Monotonic(steps)
    ensures r.Ok? ==> Reports(r.value, steps)
    ensures r.Ok? ==> exists spells, groups :: ReportsRuns(r.value, steps, spells, groups)
    ensures r.Ok? ==> exists spells, waits :: ReportsSteps(r.value, steps, spells, waits)
  {
    var ok, a := Accumulate(steps);
    if !ok {
      return Err(NotMonotonic);
    }
    FinishTally(a, steps);
    r := Ok(if a.phase == None then a.m else CloseRun(a.m, a.phase.value, a.duration));
    RunsReported(r.value, steps);
    StepsReported(r.value, steps);
  }

  lemma PrefixMonotonic(steps: seq<Step>, n: nat)
    requires n <= |steps| && Monotonic(steps)
    ensures Monotonic(steps[..n])
  {
  }

  lemma MonotonicPrefix(steps: seq<Step>, n: nat)
    requires n <= |steps| && !Monotonic(steps[..n])
    ensures !Monotonic(steps)
  {
    if Monotonic(steps) {
      PrefixMonotonic(steps, n);
      assert false;
    }
  }

  lemma NotMonotonicNext(steps: seq<Step>, step: Step)
    requires step.time < Before(steps) || step.time < 0.0
    ensures !Monotonic(steps + [step])
  {
    var all := steps + [step];
    assert all[|steps|] == step;
    if steps != [] {
      assert all[|steps| - 1] == steps[|steps| - 1];
    }
  }

  lemma RunsLast(gs: seq<seq<Spell>>, p: Phase)
    requires gs != [] && forall i :: 0 <= i < |gs| ==> gs[i] != []
    ensures RunsOf(gs, p) == RunsOf(gs[..|gs| - 1], p) + (if gs[|gs| - 1][0].phase == p then [Total(gs[|gs| - 1])] else [])
  {
  }

  /** Appending the open run gives all the runs. */
  lemma CloseLast(a: Acc, steps: seq<Step>)
    requires Tallied(a, steps)
    ensures var m, gs := if a.phase == None then a.m else CloseRun(a.m, a.phase.value, a.duration), Groups(Busy(steps));
            && m.prefillRuns == RunsOf(gs, Prefill) && m.decodeRuns == RunsOf(gs, Decode)
            && m == a.m.(prefillRuns := m.prefillRuns, decodeRuns := m.decodeRuns)
            && m.switches == if gs == [] then 0 else |gs| - 1
  {
    var gs := Groups(Busy(steps));
    if gs != [] {
      RunsLast(gs, Prefill);
      RunsLast(gs, Decode);
    }
  }

  lemma FinishTally(a: Acc, steps: seq<Step>)
    requires Tallied(a, steps)
    ensures Reports(if a.phase == None then a.m else CloseRun(a.m, a.phase.value, a.duration), steps)
  {
    CloseLast(a, steps);
    RunFacts(steps);
  }

  lemma MonotonicNext(steps: seq<Step>, step: Step)
    requires Monotonic(steps) && Before(steps) <= step.time
    ensures Monotonic(steps + [step])
  {
    forall i | 0 <= i < |steps| ensures steps[i].time <= step.time {
      assert i < |steps| - 1 ==> steps[i].time <= steps[|steps| - 1].time;
    }
  }

  // ----- what is reported, step by step

  ghost function BusyAt(steps: seq<Step>): nat -> bool { (i: nat) => i < |steps| && steps[i].phase.Some? }

  ghost function DecodeAt(steps: seq<Step>): nat -> bool { (i: nat) => i < |steps| && steps[i].phase == Some(Decode) }

  /** The spell of step `i`: the time since the step before it, or since 0. */
  ghost function SpellAt(steps: seq<Step>): (nat, Spell) -> bool {
    (i: nat, s: Spell) => i < |steps| && s.step == steps[i] && Some(s.phase) == steps[i].phase
              && s.time == (if i == 0 then steps[i].time else steps[i].time - steps[i - 1].time)
  }

  ghost function BatchAt(steps: seq<Step>): (nat, int) -> bool { (i: nat, b: int) => i < |steps| && b == steps[i].decodeBatch }

  lemma BusyNext(steps: seq<Step>, n: nat)
    requires n < |steps|
    ensures Busy(steps[..n + 1]) ==
            if steps[n].phase == None then Busy(steps[..n])
            else Busy(steps[..n]) + [Spell(steps[n].phase.value, steps[n].time - Before(steps[..n]), steps[n])]
  {
    assert steps[..n + 1][..n] == steps[..n];
  }

  lemma SpellMade(steps: seq<Step>, n: nat)
    requires n < |steps| && steps[n].phase.Some?
    ensures SpellAt(steps)(n, Spell(steps[n].phase.value, steps[n].time - Before(steps[..n]), steps[n]))
  {
  }

  lemma BusyPickedNext(steps: seq<Step>, n: nat)
    requires n < |steps| && Picked(n, BusyAt(steps), SpellAt(steps), Busy(steps[..n]))
    ensures Picked(n + 1, BusyAt(steps), SpellAt(steps), Busy(steps[..n + 1]))
  {
    BusyNext(steps, n);
    if steps[n].phase == None {
      PickedSkip(n, BusyAt(steps), SpellAt(steps), Busy(steps[..n]));
    } else {
      SpellMade(steps, n);
      PickedMore(n, BusyAt(steps), SpellAt(steps), Busy(steps[..n]),
                 Spell(steps[n].phase.value, steps[n].time - Before(steps[..n]), steps[n]));
    }
  }

  /** The spells are those of the busy steps, in order. */
  lemma {:induction false} BusyPicked(steps: seq<Step>, n: nat)
    requires n <= |steps|
    ensures Picked(n, BusyAt(steps), SpellAt(steps), Busy(steps[..n]))
  {
    if n == 0 {
      PickedNone(BusyAt(steps), SpellAt(steps));
    } else {
      BusyPicked(steps, n - 1);
      BusyPickedNext(steps, n - 1);
    }
  }

  lemma BatchesNext(spells: seq<Spell>, spell: Spell)
    ensures Batches(spells + [spell]) == Batches(spells) + (if spell.phase == Decode then [spell.step.decodeBatch] else [])
  {
    assert (spells + [spell])[..|spells|] == spells;
  }

  /** The decode batches are those of the decode steps, in order. */
  lemma {:induction false} BatchesPicked(steps: seq<Step>, n: nat)
    requires n <= |steps|
    ensures Picked(n, DecodeAt(steps), BatchAt(steps), Batches(Busy(steps[..n])))
  {
    if n == 0 {
      PickedNone(DecodeAt(steps), BatchAt(steps));
    } else {
      BatchesPicked(steps, n - 1);
      BusyNext(steps, n - 1);
      var before := Busy(steps[..n - 1]);
      if steps[n - 1].phase.Some? {
        BatchesNext(before, Spell(steps[n - 1].phase.value, steps[n - 1].time - Before(steps[..n - 1]), steps[n - 1]));
      }
      if steps[n - 1].phase == Some(Decode) {
        PickedMore(n - 1, DecodeAt(steps), BatchAt(steps), Batches(before), steps[n - 1].decodeBatch);
      } else {
        PickedSkip(n - 1, DecodeAt(steps), BatchAt(steps), Batches(before));
      }
    }
  }

  ghost function KindAt(waits: seq<Wait>, partial: bool): nat -> bool { (i: nat) => i < |waits| && waits[i].partial == partial }

  ghost function SecondsAt(waits: seq<Wait>): (nat, real) -> bool { (i: nat, x: real) => i < |waits| && x == waits[i].seconds }

  lemma {:induction false} WaitsPicked(waits: seq<Wait>, partial: bool, n: nat)
    requires n <= |waits|
    ensures Picked(n, KindAt(waits, partial), SecondsAt(waits), Waits(waits[..n], partial))
  {
    if n == 0 {
      PickedNone(KindAt(waits, partial), SecondsAt(waits));
    } else {
      WaitsPicked(waits, partial, n - 1);
      assert waits[..n][..n - 1] == waits[..n - 1];
      if waits[n - 1].partial == partial {
        PickedMore(n - 1, KindAt(waits, partial), SecondsAt(waits), Waits(waits[..n - 1], partial), waits[n - 1].seconds);
      } else {
        PickedSkip(n - 1, KindAt(waits, partial), SecondsAt(waits), Waits(waits[..n - 1], partial));
      }
    }
  }

  ghost function StepWaits(spells: seq<Spell>): seq<seq<Wait>> {
    seq(|spells|, i requires 0 <= i < |spells| => spells[i].step.waits)
  }

  lemma {:induction false} WaitsJoined(spells: seq<Spell>)
    ensures AllWaits(spells) == Join(StepWaits(spells))
  {
    if spells != [] {
      var front, last := spells[..|spells| - 1], spells[|spells| - 1];
      WaitsJoined(front);
      JoinSnoc(StepWaits(front), last.step.waits);
      assert StepWaits(spells) == StepWaits(front) + [last.step.waits];
    }
  }

  ghost function Given(spells: seq<Spell>, reason: string): set<int> {
    set i | 0 <= i < |spells| && spells[i].step.reason == reason
  }

  lemma GivenNext(spells: seq<Spell>, spell: Spell, reason: string)
    ensures Given(spells + [spell], reason) == Given(spells, reason) + (if spell.step.reason == reason then {|spells|} else {})
    ensures |Given(spells + [spell], reason)| == |Given(spells, reason)| + (if spell.step.reason == reason then 1 else 0)
  {
    var more := spells + [spell];
    assert more[|spells|] == spell && forall i :: 0 <= i < |spells| ==> more[i] == spells[i];
    assert |spells| !in Given(spells, reason);
  }

  /** The reason's count is the number of busy steps that give it. */
  ghost predicate Counted(counts: map<string, nat>, reason: string, given: set<int>) {
    (reason in counts <==> given != {}) && (reason in counts ==> counts[reason] == |given|)
  }

  lemma CountedNext(counts: map<string, nat>, reason: string, given: set<int>, r: string, next: set<int>)
    requires Counted(counts, reason, given) && |next| == |given| + (if r == reason then 1 else 0)
    requires r != reason ==> next == given
    ensures Counted(counts[r := (if r in counts then counts[r] else 0) + 1], reason, next)
  {
  }

  /** Each reason given by some busy step is counted once for each busy step that gives it. */
  lemma {:induction false} ReasonsCounted(spells: seq<Spell>, reason: string)
    ensures Counted(Reasons(spells), reason, Given(spells, reason))
  {
    if spells == [] {
      assert Given(spells, reason) == {};
    } else {
      var front, last := spells[..|spells| - 1], spells[|spells| - 1];
      ReasonsCounted(front, reason);
      GivenNext(front, last, reason);
      assert spells == front + [last];
      CountedNext(Reasons(front), reason, Given(front, reason), last.step.reason, Given(spells, reason));
    }
  }

  ghost function GroupAt(groups: seq<seq<Spell>>, p: Phase): nat -> bool {
    (i: nat) => i < |groups| && groups[i] != [] && groups[i][0].phase == p
  }

  ghost function TotalAt(groups: seq<seq<Spell>>): (nat, real) -> bool { (i: nat, x: real) => i < |groups| && x == Total(groups[i]) }

  lemma {:induction false} RunsPicked(groups: seq<seq<Spell>>, p: Phase, n: nat)
    requires n <= |groups| && forall i :: 0 <= i < |groups| ==> groups[i] != []
    ensures Picked(n, GroupAt(groups, p), TotalAt(groups), RunsOf(groups[..n], p))
  {
    if n == 0 {
      PickedNone(GroupAt(groups, p), TotalAt(groups));
    } else {
      RunsPicked(groups, p, n - 1);
      assert groups[..n][..n - 1] == groups[..n - 1];
      if groups[n - 1][0].phase == p {
        PickedMore(n - 1, GroupAt(groups, p), TotalAt(groups), RunsOf(groups[..n - 1], p), Total(groups[n - 1]));
      } else {
        PickedSkip(n - 1, GroupAt(groups, p), TotalAt(groups), RunsOf(groups[..n - 1], p));
      }
    }
  }

  /** The runs: the busy steps' spells cut into maximal blocks of one phase, each block's time listed under its phase. */
  ghost predicate ReportsRuns(m: Metrics, steps: seq<Step>, spells: seq<Spell>, groups: seq<seq<Spell>>) {
    && Picked(|steps|, BusyAt(steps), SpellAt(steps), spells) && Grouped(groups) && Join(groups) == spells
    && Picked(|groups|, GroupAt(groups, Prefill), TotalAt(groups), m.prefillRuns)
    && Picked(|groups|, GroupAt(groups, Decode), TotalAt(groups), m.decodeRuns)
    && m.switches == if groups == [] then 0 else |groups| - 1
  }

  /** The rest: decode batches in order, each reason's count, and the waits of the busy steps in order by kind. */
  ghost predicate ReportsSteps(m: Metrics, steps: seq<Step>, spells: seq<Spell>, waits: seq<Wait>) {
    && Picked(|steps|, BusyAt(steps), SpellAt(steps), spells) && waits == Join(StepWaits(spells))
    && Picked(|steps|, DecodeAt(steps), BatchAt(steps), m.batches)
    && (forall r :: Counted(m.reasons, r, Given(spells, r)))
    && Picked(|waits|, KindAt(waits, true), SecondsAt(waits), m.partialWaits)
    && Picked(|waits|, KindAt(waits, false), SecondsAt(waits), m.newWaits)
  }

  lemma SwitchesReported(m: Metrics, steps: seq<Step>)
    requires Reports(m, steps)
    ensures var groups := Groups(Busy(steps)); m.switches == if groups == [] then 0 else |groups| - 1
  {
    GroupsAreRuns(Busy(steps));
    RunCounts(Groups(Busy(steps)));
  }

  lemma RunsReported(m: Metrics, steps: seq<Step>)
    requires Reports(m, steps)
    ensures ReportsRuns(m, steps, Busy(steps), Groups(Busy(steps)))
  {
    var groups := Groups(Busy(steps));
    assert steps[..|steps|] == steps && groups[..|groups|] == groups;
    BusyPicked(steps, |steps|);
    SwitchesReported(m, steps);
    GroupsAreRuns(Busy(steps));
    RunsPicked(groups, Prefill, |groups|);
    RunsPicked(groups, Decode, |groups|);
  }

  lemma StepsReported(m: Metrics, steps: seq<Step>)
    requires Reports(m, steps)
    ensures ReportsSteps(m, steps, Busy(steps), AllWaits(Busy(steps)))
  {
    var spells, waits := Busy(steps), AllWaits(Busy(steps));
    assert steps[..|steps|] == steps && waits[..|waits|] == waits;
    BusyPicked(steps, |steps|);
    BatchesPicked(steps, |steps|);
    WaitsJoined(spells);
    WaitsPicked(waits, true, |waits|);
    WaitsPicked(waits, false, |waits|);
    forall r ensures Counted(m.reasons, r, Given(spells, r)) {
      ReasonsCounted(spells, r);
    }
  }
}
