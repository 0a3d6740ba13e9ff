/**
 The wave admission loop of efficiency/bench_probe.py: a new wave is admitted when every request of the
 current one has published a token. The engine hands out sequence ids, publishes tokens and retires
 requests as it likes; it is finished when no admitted request is left.

 `After` is the loop as a function of the engine's reports; `Probe` is the loop itself, proved against it.
 */
module WaveAdmission {
  import opened Sequences

  /** Ids and token counts published in a step, and ids and token counts of the requests that retired in it. */
  datatype StepOutput = StepOutput(published: seq<(int, nat)>, finished: seq<(int, nat)>)

  /** The trace's length, the wave size, and the id the engine gives to each request. */
  datatype Workload = Workload(requests: nat, width: nat, ids: nat -> int)

  /** Sequence ids in admission order (the keys of seq_to_request), the waves they came in, and the bookkeeping. */
  datatype State = State(admitted: seq<int>, waves: seq<seq<int>>, currentWave: set<int>,
                         firstTokens: set<int>, retired: set<int>)

  datatype Outcome = AllServed | StillRunning | DuplicateId | EndedEarly

  const Start := State([], [], {}, {}, {})

  /** The ids of requests `from` to `to`. */
  function Ids(ids: nat -> int, from: nat, to: nat): (r: seq<int>)
    requires from <= to
    ensures |r| == to - from
  {
    seq(to - from, i requires 0 <= i => ids(from + i))
  }

  function Stop(w: Workload, admitted: nat): nat {
    if admitted + w.width <= w.requests then admitted + w.width else w.requests
  }

  /** admit_wave, when the engine repeats no id. */
  ghost function Admit(w: Workload, s: State): State
    requires |s.admitted| <= w.requests
  {
    var wave := Ids(w.ids, |s.admitted|, Stop(w, |s.admitted|));
    s.(admitted := s.admitted + wave, waves := s.waves + [wave], currentWave := set x | x in wave)
  }

  ghost predicate Reports(reports: seq<(int, nat)>, n: nat, x: int)
    requires n <= |reports|
  {
    exists i :: 0 <= i < n && reports[i].0 == x && reports[i].1 > 0
  }

  /** The step published a token of `x`, in either report. */
  ghost predicate Speaks(output: StepOutput, x: int) {
    Reports(output.published, |output.published|, x) || Reports(output.finished, |output.finished|, x)
  }

  /** The bookkeeping after an engine step. */
  ghost function Recorded(s: State, output: StepOutput): State {
    s.(firstTokens := s.firstTokens + (set x | x in s.admitted && Speaks(output, x)),
       retired := s.retired + (set i | 0 <= i < |output.finished| :: output.finished[i].0))
  }

  ghost predicate WaveSpoke(w: Workload, s: State) { |s.admitted| < w.requests && s.currentWave <= s.firstTokens }

  ghost function Iterated(w: Workload, s: State, output: StepOutput): State
    requires |s.admitted| <= w.requests
  {
    var r := Recorded(s, output);
    if WaveSpoke(w, r) then Admit(w, r) else r
  }

  /** The probe after these engine steps. */
  ghost function After(w: Workload, script: seq<StepOutput>): (s: State)
    ensures |s.admitted| <= w.requests
  {
    if script == [] then Admit(w, Start) else Iterated(w, After(w, script[..|script| - 1]), script[|script| - 1])
  }

  /** llm.is_finished() */
  ghost predicate AllRetired(s: State) { forall x :: x in s.admitted ==> x in s.retired }

  // ----- what the loop keeps

  /** Admitted requests without a first token. */
  ghost function Waiting(s: State): set<int> { set x | x in s.admitted && x !in s.firstTokens }

  /** Every wave but the last is full; none is over-full. */
  ghost predicate InWaves(waves: seq<seq<int>>, width: nat) {
    && (forall i :: 0 <= i < |waves| ==> |waves[i]| <= width)
    && (forall i :: 0 <= i < |waves| - 1 ==> |waves[i]| == width)
  }

  ghost predicate Barrier(w: Workload, s: State) {
    && s.admitted == Ids(w.ids, 0, |s.admitted|) && |s.admitted| <= w.requests
    && Join(s.waves) == s.admitted && InWaves(s.waves, w.width)
    && (|s.admitted| < w.requests && s.waves != [] ==> |s.waves[|s.waves| - 1]| == w.width)
    && |s.currentWave| <= w.width && (forall x :: x in s.currentWave ==> x in s.admitted)
    && Waiting(s) <= s.currentWave
  }

  /** The loop only goes on while a request of the current wave is still waiting. */
  ghost predicate Blocked(w: Workload, s: State) {
    |s.admitted| < w.requests ==> exists x :: x in s.currentWave && x !in s.firstTokens
  }

  lemma {:induction false} MembersBound(xs: seq<int>)
    ensures |set x | x in xs| <= |xs|
  {
    if xs != [] {
      var all, rest := set x | x in xs, set x | x in xs[1..];
      MembersBound(xs[1..]);
      assert all == rest + {xs[0]};
    }
  }

  lemma WavesSnoc(waves: seq<seq<int>>, wave: seq<int>, width: nat)
    requires InWaves(waves, width) && (waves != [] ==> |waves[|waves| - 1]| == width) && |wave| <= width
    ensures InWaves(waves + [wave], width) && Join(waves + [wave]) == Join(waves) + wave
  {
    JoinSnoc(waves, wave);
  }

  /** A wave is admitted when nothing is waiting: the new wave alone waits. */
  lemma AdmitBarrier(w: Workload, s: State)
    requires Barrier(w, s) && s.currentWave <= s.firstTokens
    requires |s.admitted| < w.requests || s.waves == []
    ensures Barrier(w, Admit(w, s))
  {
    var wave := Ids(w.ids, |s.admitted|, Stop(w, |s.admitted|));
    var t := Admit(w, s);
    MembersBound(wave);
    WavesSnoc(s.waves, wave, w.width);
    assert t.admitted == Ids(w.ids, 0, |t.admitted|);
    forall x | x in Waiting(t) ensures x in t.currentWave {
      assert x in s.admitted ==> x in s.firstTokens || x in Waiting(s);
    }
  }

  lemma AdmitBlocked(w: Workload, s: State)
    requires Barrier(w, s) && (|s.admitted| < w.requests ==> w.width >= 1)
    requires forall x :: x in s.firstTokens ==> x in s.admitted
    requires forall i, j :: 0 <= i < j < w.requests ==> w.ids(i) != w.ids(j)
    ensures Blocked(w, Admit(w, s))
  {
    if |s.admitted| < w.requests {
      var t, x := Admit(w, s), w.ids(|s.admitted|);
      assert t.admitted[|s.admitted|] == x && x in t.currentWave;
      assert forall i :: 0 <= i < |s.admitted| ==> s.admitted[i] == w.ids(0 + i);
    }
  }

  lemma RecordBarrier(w: Workload, s: State, output: StepOutput)
    requires Barrier(w, s)
    ensures Barrier(w, Recorded(s, output)) && Waiting(Recorded(s, output)) <= Waiting(s)
  {
  }

  /** Whatever the engine reports, the loop keeps the barrier. */
  lemma {:induction false} LoopBarrier(w: Workload, script: seq<StepOutput>)
    ensures Barrier(w, After(w, script)) && forall x :: x in After(w, script).firstTokens ==> x in After(w, script).admitted
  {
    if script == [] {
      assert Barrier(w, Start);
      AdmitBarrier(w, Start);
    } else {
      var s := After(w, script[..|script| - 1]);
      LoopBarrier(w, script[..|script| - 1]);
      RecordBarrier(w, s, script[|script| - 1]);
      if WaveSpoke(w, Recorded(s, script[|script| - 1])) {
        AdmitBarrier(w, Recorded(s, script[|script| - 1]));
      }
    }
  }

  /** At no time do more requests than one wave wait for a first token, after an iteration or within it. */
  lemma WaitingBounded(w: Workload, script: seq<StepOutput>, output: StepOutput)
    ensures |Waiting(After(w, script))| <= w.width
    ensures |Waiting(Recorded(After(w, script), output))| <= w.width
  {
    var s := After(w, script);
    LoopBarrier(w, script);
    SubsetSize(Waiting(s), s.currentWave);
    RecordBarrier(w, s, output);
    SubsetSize(Waiting(Recorded(s, output)), Waiting(s));
  }

  /** The waves partition the admitted prefix of the trace in order; all but the last are full, and that too if requests are left. */
  lemma WavesPartition(w: Workload, script: seq<StepOutput>)
    ensures var s := After(w, script);
            && s.admitted == Ids(w.ids, 0, |s.admitted|) && Join(s.waves) == s.admitted && InWaves(s.waves, w.width)
            && (|s.admitted| < w.requests && s.waves != [] ==> |s.waves[|s.waves| - 1]| == w.width)
  {
    LoopBarrier(w, script);
  }

  ghost predicate DistinctIds(w: Workload) { forall i, j :: 0 <= i < j < w.requests ==> w.ids(i) != w.ids(j) }

  lemma NotWithin(wave: set<int>, tokens: set<int>)
    requires !(wave <= tokens)
    ensures exists x :: x in wave && x !in tokens
  {
    if forall x :: x in wave ==> x in tokens {
      assert false;
    }
  }

  lemma LoopBlocked(w: Workload, script: seq<StepOutput>)
    requires DistinctIds(w) && (w.requests > 0 ==> w.width >= 1)
    ensures Blocked(w, After(w, script))
  {
    if script == [] {
      assert Barrier(w, Start);
      AdmitBlocked(w, Start);
    } else {
      var s, output := After(w, script[..|script| - 1]), script[|script| - 1];
      LoopBarrier(w, script[..|script| - 1]);
      RecordBarrier(w, s, output);
      if WaveSpoke(w, Recorded(s, output)) {
        AdmitBlocked(w, Recorded(s, output));
      } else if |s.admitted| < w.requests {
        NotWithin(s.currentWave, Recorded(s, output).firstTokens);
      }
    }
  }

  // ----- first tokens and retirements over the script

  /** The step reported tokens of `x`: among the published ones, or with its retirement. */
  ghost predicate TokenIn(output: StepOutput, x: int) {
    exists n: nat :: n > 0 && ((x, n) in output.published || (x, n) in output.finished)
  }

  ghost predicate RetiredIn(output: StepOutput, x: int) { exists n: nat :: (x, n) in output.finished }

  lemma TokenInSpeaks(output: StepOutput, x: int)
    ensures Speaks(output, x) <==> TokenIn(output, x)
  {
    if i :| 0 <= i < |output.published| && output.published[i].0 == x && output.published[i].1 > 0 {
      assert (x, output.published[i].1) in output.published;
    }
    if i :| 0 <= i < |output.finished| && output.finished[i].0 == x && output.finished[i].1 > 0 {
      assert (x, output.finished[i].1) in output.finished;
    }
  }

  lemma RetiredInFinished(output: StepOutput, x: int)
    ensures (exists i :: 0 <= i < |output.finished| && output.finished[i].0 == x) <==> RetiredIn(output, x)
  {
    if i :| 0 <= i < |output.finished| && output.finished[i].0 == x {
      assert (x, output.finished[i].1) in output.finished;
    }
  }

  /** Step `k` reported tokens of `x` when it had been admitted. */
  ghost predicate SpokeAt(w: Workload, script: seq<StepOutput>, k: int, x: int) {
    0 <= k < |script| && x in After(w, script[..k]).admitted && TokenIn(script[k], x)
  }

  ghost predicate SpokeIn(w: Workload, script: seq<StepOutput>, x: int) { exists k :: SpokeAt(w, script, k, x) }

  ghost predicate RetiredBy(script: seq<StepOutput>, x: int) { exists k :: 0 <= k < |script| && RetiredIn(script[k], x) }

  lemma SpokeBefore(w: Workload, script: seq<StepOutput>, k: int, x: int)
    requires script != []
    ensures var front, n := script[..|script| - 1], |script| - 1;
            SpokeAt(w, script, k, x) <==>
            if k == n then x in After(w, front).admitted && TokenIn(script[n], x) else SpokeAt(w, front, k, x)
  {
    if 0 <= k < |script| - 1 {
      assert script[..k] == script[..|script| - 1][..k];
    }
  }

  lemma SpokeNext(w: Workload, script: seq<StepOutput>, x: int)
    requires script != []
    ensures var front, last := script[..|script| - 1], script[|script| - 1];
            SpokeIn(w, script, x) <==> SpokeIn(w, front, x) || (x in After(w, front).admitted && TokenIn(last, x))
  {
    if k :| SpokeAt(w, script, k, x) {
      SpokeBefore(w, script, k, x);
    }
    SpokeBefore(w, script, |script| - 1, x);
    var front := script[..|script| - 1];
    if k :| SpokeAt(w, front, k, x) {
      SpokeBefore(w, script, k, x);
    }
  }

  lemma RetiredNext(script: seq<StepOutput>, x: int)
    requires script != []
    ensures RetiredBy(script, x) <==> RetiredBy(script[..|script| - 1], x) || RetiredIn(script[|script| - 1], x)
  {
    var front := script[..|script| - 1];
    if k :| 0 <= k < |front| && RetiredIn(front[k], x) {
      assert RetiredIn(script[k], x);
    }
    if k :| 0 <= k < |script| && RetiredIn(script[k], x) {
      assert k < |front| ==> RetiredIn(front[k], x);
    }
  }

  /** A first token is recorded exactly for a request of which some step reported tokens, a retirement for one reported finished. */
  lemma {:induction false} RecordsExactly(w: Workload, script: seq<StepOutput>, x: int)
    ensures x in After(w, script).firstTokens <==> SpokeIn(w, script, x)
    ensures x in After(w, script).retired <==> RetiredBy(script, x)
  {
    if script != [] {
      var front, last := script[..|script| - 1], script[|script| - 1];
      RecordsExactly(w, front, x);
      SpokeNext(w, script, x);
      RetiredNext(script, x);
      TokenInSpeaks(last, x);
      RetiredInFinished(last, x);
    }
  }

  /** The loop can end with requests left over only after one retired of which no step had reported tokens. */
  lemma EarlyEndIsSilent(w: Workload, script: seq<StepOutput>)
    requires DistinctIds(w) && (w.requests > 0 ==> w.width >= 1)
    requires AllRetired(After(w, script)) && |After(w, script).admitted| < w.requests
    ensures exists x :: x in After(w, script).admitted && RetiredBy(script, x) && !SpokeIn(w, script, x)
  {
    var s := After(w, script);
    LoopBarrier(w, script);
    LoopBlocked(w, script);
    var x :| x in s.currentWave && x !in s.firstTokens;
    assert x in s.admitted && x in s.retired;
    RecordsExactly(w, script, x);
  }

  /** The loop takes `n` steps, since it finds the engine unfinished before each, and leaves the probe in `s`. */
  ghost predicate Takes(w: Workload, script: seq<StepOutput>, n: nat, s: State) {
    && n <= |script| && s == After(w, script[..n])
    && forall k :: 0 <= k < n ==> !AllRetired(After(w, script[..k]))
  }

  lemma TakesNext(w: Workload, script: seq<StepOutput>, n: nat, s: State)
    requires Takes(w, script, n, s) && n < |script| && !AllRetired(s)
    ensures Takes(w, script, n + 1, Iterated(w, s, script[n]))
  {
    assert script[..n + 1][..n] == script[..n];
  }

  // ----- the loop

  class Probe {
    const requests: nat
    const width: nat
    const ids: nat -> int
    var currentWave: set<int>
    /** next_request is their number. */
    var admitted: seq<int>
    var firstTokens: set<int>
    var retired: set<int>
    var waves: seq<seq<int>>

    ghost function View(): State
      reads this
    {
      State(admitted, waves, currentWave, firstTokens, retired)
    }

    ghost function Load(): Workload { Workload(requests, width, ids) }

    /** The engine has repeated no id yet. */
    ghost predicate Valid()
      reads this
    {
      |admitted| <= requests && admitted == Ids(ids, 0, |admitted|) && DistinctIds(Workload(|admitted|, width, ids))
    }

    /** `wave_size or len(trace)` */
    constructor (requests: nat, waveSize: nat, ids: nat -> int)
      ensures Valid() && View() == Start && this.requests == requests && this.ids == ids
      ensures width == (if waveSize > 0 then waveSize else requests)
    {
      this.requests, this.ids := requests, ids;
      width := if waveSize > 0 then waveSize else requests;
      currentWave, admitted, firstTokens, retired, waves := {}, [], {}, {}, [];
    }

    /** admit_wave: the loop over `trace[next_request:next_request + width]`. */
    method AdmitWave() returns (duplicate: bool)
      requires Valid()
      modifies this`admitted, this`currentWave, this`waves
      ensures duplicate <==> !DistinctIds(Workload(Stop(Load(), |old(admitted)|), width, ids))
      ensures !duplicate ==> Valid() && View() == Admit(Load(), old(View()))
    {
      var stop := if |admitted| + width <= requests then |admitted| + width else requests;
      var wave := [];
      currentWave := {};
      while |admitted| < stop
        invariant |old(admitted)| <= |admitted| <= stop && Valid()
        invariant wave == Ids(ids, |old(admitted)|, |admitted|) && admitted == old(admitted) + wave
        invariant currentWave == (set x | x in wave) && waves == old(waves)
        decreases stop - |admitted|
      {
        var id := ids(|admitted|);
        if id in admitted {
          ghost var k :| 0 <= k < |admitted| && admitted[k] == id;
          assert ids(k) == ids(|admitted|);
          return true;
        }
        assert forall i :: 0 <= i < |admitted| ==> ids(i) == admitted[i];
        admitted, wave, currentWave := admitted + [id], wave + [id], currentWave + {id};
      }
      waves := waves + [wave];
      duplicate := false;
      assert wave == Ids(ids, |old(admitted)|, stop) && stop == Stop(Load(), |old(admitted)|);
    }

    /** The bookkeeping after an engine step: first tokens, from both reports, and retirements. */
    method Record(output: StepOutput)
      modifies this`firstTokens, this`retired
      ensures View() == Recorded(old(View()), output)
    {
      var i := 0;
      while i < |output.published|
        invariant 0 <= i <= |output.published|
        invariant retired == old(retired)
        invariant forall x :: x in firstTokens <==> x in old(firstTokens) || (x in admitted && Reports(output.published, i, x))
      {
        if output.published[i].1 > 0 && output.published[i].0 in admitted {
          firstTokens := firstTokens + {output.published[i].0};
        }
        i := i + 1;
      }
      i := 0;
      while i < |output.finished|
        invariant 0 <= i <= |output.finished|
        invariant forall x :: x in firstTokens <==>
                    (x in old(firstTokens)
                     || (x in admitted && (Reports(output.published, |output.published|, x) || Reports(output.finished, i, x))))
        invariant forall x :: x in retired <==> x in old(retired) || exists k :: 0 <= k < i && output.finished[k].0 == x
      {
        if output.finished[i].1 > 0 && output.finished[i].0 in admitted {
          firstTokens := firstTokens + {output.finished[i].0};
        }
        retired := retired + {output.finished[i].0};
        i := i + 1;
      }
      ghost var r := Recorded(old(View()), output);
      assert forall x :: x in firstTokens <==> x in r.firstTokens;
      assert forall x :: x in retired <==> x in r.retired;
    }

    /** One iteration behind the engine step. */
    method Iterate(output: StepOutput) returns (duplicate: bool)
      requires Valid()
      modifies this`admitted, this`currentWave, this`waves, this`firstTokens, this`retired
      ensures duplicate ==> !DistinctIds(Load())
      ensures !duplicate ==> Valid() && View() == Iterated(Load(), old(View()), output)
    {
      Record(output);
      duplicate := false;
      if |admitted| < requests && currentWave <= firstTokens {
        duplicate := AdmitWave();
      }
    }

    predicate Finished()
      reads this
      ensures Finished() <==> AllRetired(View())
    {
      forall x :: x in admitted ==> x in retired
    }

    /**
     The step loop. Unless the engine repeats an id, the probe is where `After` says after the steps taken, none of
     which found the engine finished; it stops there or at the script's end.
     */
    method Serve(script: seq<StepOutput>) returns (r: Outcome, ghost steps: nat)
      requires Valid() && View() == Start
      modifies this
      ensures r.DuplicateId? ==> !DistinctIds(Load())
      ensures !r.DuplicateId? ==> Valid() && Takes(Load(), script, steps, View())
      ensures r.StillRunning? <==> !r.DuplicateId? && steps == |script| && !AllRetired(View())
      ensures r.AllServed? <==> !r.DuplicateId? && AllRetired(View()) && |admitted| == requests
      ensures r.EndedEarly? <==> !r.DuplicateId? && AllRetired(View()) && |admitted| < requests
    {
      steps := 0;
      var duplicate := AdmitWave();
      if duplicate {
        return DuplicateId, steps;
      }
      var step := 0;
      while !Finished() && step < |script|
        invariant 0 <= step <= |script| && Valid() && Takes(Load(), script, step, View())
        decreases |script| - step
      {
        TakesNext(Load(), script, step, View());
        duplicate := Iterate(script[step]);
        if duplicate {
          return DuplicateId, steps;
        }
        step := step + 1;
      }
      steps := step;
      r := if !Finished() then StillRunning else if |admitted| != requests then EndedEarly else AllServed;
    }
  }
}
