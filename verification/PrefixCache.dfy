/**
 The prefix-cache accounting of scbench/run_scbench.py: what a prompt may reuse, what a request reports, and
 what the trace summary adds up. The engine's answer to a request is a parameter.
 */
module PrefixCache {
  import opened Wrappers
  import opened Arithmetic
  import opened Sequences

  datatype Status = Success | ModelFailed | MetricFailed

  datatype Error = ZeroDivision

  datatype MetricError =
    | NegativeTokens | NegativeBlocks | InvalidBlockSize | Unaligned | BlockMismatch | ExceedsUsable

  /** What the engine does with one request: cached tokens and blocks as read at the first token. */
  datatype EngineRun = EngineRun(raised: bool, cachedTokens: int, cachedBlocks: int, generated: seq<int>)

  datatype Record = Record(
    status: Status, promptTokens: nat, plannedReusable: nat, plannedEligible: int, maxUsable: nat,
    cachedTokens: int, cachedBlocks: int)

  datatype Summary = Summary(
    status: Option<Status>, successes: nat, promptTokens: int, cachedTokens: int, recomputed: int,
    planned: int, covered: int, beyond: int, beyondRequests: nat)

  // ----- single requests

  /** Python's `//`, which rounds down for either sign of the divisor. */
  function FloorDiv(a: int, b: int): (q: int)
    requires b != 0
    ensures b > 0 ==> q * b <= a < q * b + b
    ensures b < 0 ==> q * b + b < a <= q * b
  {
    if b > 0 then a / b
    else
      assert -a == (-a) / (-b) * (-b) + (-a) % (-b);
      (-a) / (-b)
  }

  function Usable(promptLen: int, block: int): (r: nat)
  {
    if block <= 0 || promptLen <= 1 then 0
    else
      var q := (promptLen - 1) / block;
      assert q * block >= 0;
      q * block
  }

  function Eligible(reusable: int, promptLen: int, block: int): Result<int, Error> {
    if block == 0 then Err(ZeroDivision)
    else
      var aligned, usable := FloorDiv(reusable, block) * block, Usable(promptLen, block);
      Ok(if aligned <= usable then aligned else usable)
  }

  ghost predicate Aligned(n: int, block: int) { exists k :: n == k * block }

  /** Of two multiples of the block, the one at most `a` below the next block cannot be beaten. */
  lemma GreatestMultiple(a: int, block: int, k: int)
    requires block > 0 && k * block <= a
    ensures k * block <= FloorDiv(a, block) * block
  {
    Ordered(k, FloorDiv(a, block) + 1, block);
  }

  lemma Ordered(k: int, n: int, block: int)
    requires block > 0 && k * block < n * block
    ensures k < n && k * block <= (n - 1) * block
  {
    if k >= n {
      Product(k - n, block);
    } else {
      Product(n - 1 - k, block);
    }
  }

  /** The eligible size is the greatest whole number of blocks within the reusable prefix and all but the last prompt token. */
  lemma EligibleGreatest(reusable: nat, promptLen: nat, block: int)
    requires block > 0
    ensures var r := Eligible(reusable, promptLen, block);
            && r.Ok? && 0 <= r.value <= reusable && r.value <= (if promptLen > 0 then promptLen - 1 else 0)
            && Aligned(r.value, block)
            && forall n :: Aligned(n, block) && n <= reusable && n <= (if promptLen > 0 then promptLen - 1 else 0)
                  ==> n <= r.value
  {
    var last := if promptLen > 0 then promptLen - 1 else 0;
    UsableFloor(promptLen, block);
    GreatestMultiple(reusable, block, 0);
    assert Aligned(FloorDiv(reusable, block) * block, block);
    forall n | Aligned(n, block) && n <= reusable && n <= last ensures n <= Eligible(reusable, promptLen, block).value {
      var k :| n == k * block;
      GreatestMultiple(reusable, block, k);
      GreatestMultiple(last, block, k);
    }
  }

  lemma UsableFloor(promptLen: nat, block: int)
    requires block > 0
    ensures var last := if promptLen > 0 then promptLen - 1 else 0;
            Usable(promptLen, block) == FloorDiv(last, block) * block <= last
    ensures Aligned(Usable(promptLen, block), block)
  {
    var last := if promptLen > 0 then promptLen - 1 else 0;
    if promptLen <= 1 {
      assert FloorDiv(last, block) == 0;
    }
    assert Aligned(FloorDiv(last, block) * block, block);
  }

  /** A block size that is not positive makes nothing eligible. */
  lemma EligibleDisabled(reusable: nat, promptLen: nat, block: int)
    requires block < 0
    ensures Eligible(reusable, promptLen, block) == Ok(0)
  {
  }

  function CheckMetrics(tokens: int, blocks: int, maxUsable: int, block: int): Option<MetricError> {
    if tokens < 0 then Some(NegativeTokens)
    else if blocks < 0 then Some(NegativeBlocks)
    else if tokens == 0 && blocks == 0 then None
    else if block <= 0 then Some(InvalidBlockSize)
    else if tokens % block != 0 then Some(Unaligned)
    else if blocks * block != tokens then Some(BlockMismatch)
    else if tokens > maxUsable then Some(ExceedsUsable)
    else None
  }

  /** The metric check passes exactly for a whole number of blocks that leaves a prompt token to compute. */
  lemma ChecksPass(tokens: int, blocks: int, promptLen: nat, block: int)
    ensures CheckMetrics(tokens, blocks, Usable(promptLen, block), block) == None <==>
            && blocks >= 0
            && (blocks == 0 ==> tokens == 0)
            && (blocks > 0 ==> block > 0 && tokens == blocks * block && tokens < promptLen)
  {
    if blocks > 0 && block > 0 && tokens == blocks * block {
      UsableFloor(promptLen, block);
      Multiple(blocks, block);
      if tokens < promptLen {
        GreatestMultiple(promptLen - 1, block, blocks);
      }
    }
  }

  lemma Multiple(k: nat, block: int)
    requires block > 0
    ensures k * block >= 0 && (k * block) % block == 0 && (k > 0 ==> k * block > 0)
  {
    GreatestMultiple(k * block, block, k);
  }

  // ----- sessions over one shared context

  /** The length of the longest common prefix. */
  ghost function CommonPrefix(left: seq<int>, right: seq<int>): (n: nat)
    ensures n <= |left| && n <= |right| && left[..n] == right[..n]
  {
    if left == [] || right == [] || left[0] != right[0] then 0
    else
      assert left[..1 + CommonPrefix(left[1..], right[1..])] == [left[0]] + left[1..][..CommonPrefix(left[1..], right[1..])];
      1 + CommonPrefix(left[1..], right[1..])
  }

  lemma CommonPrefixLongest(left: seq<int>, right: seq<int>, n: nat)
    requires n <= |left| && n <= |right|
    ensures left[..n] == right[..n] <==> n <= CommonPrefix(left, right)
  {
    var c := CommonPrefix(left, right);
    if n <= c {
      assert left[..n] == left[..c][..n] && right[..n] == right[..c][..n];
    } else {
      Mismatch(left, right);
      assert n > c ==> left[..n][c] == left[c] && right[..n][c] == right[c];
    }
  }

  lemma {:induction false} Mismatch(left: seq<int>, right: seq<int>)
    ensures var c := CommonPrefix(left, right); c < |left| && c < |right| ==> left[c] != right[c]
  {
    if left != [] && right != [] && left[0] == right[0] {
      Mismatch(left[1..], right[1..]);
    }
  }

  method CommonPrefixLen(left: seq<int>, right: seq<int>) returns (count: nat)
    ensures count == CommonPrefix(left, right)
  {
    count := 0;
    while count < |left| && count < |right|
      invariant count <= |left| && count <= |right| && left[..count] == right[..count]
    {
      if left[count] != right[count] {
        break;
      }
      count := count + 1;
    }
    CommonPrefixLongest(left, right, count);
    if count < |left| && count < |right| {
      CommonPrefixLongest(left, right, count + 1);
      assert left[..count + 1][count] == left[count] && right[..count + 1][count] == right[count];
    }
  }

  /** What a record says about its request, given the engine's answer. */
  ghost predicate Describes(r: Record, prompt: seq<int>, reusable: nat, block: int, run: EngineRun) {
    && r.promptTokens == |prompt| && r.plannedReusable == reusable
    && Eligible(reusable, |prompt|, block) == Ok(r.plannedEligible)
    && r.cachedTokens == run.cachedTokens && r.cachedBlocks == run.cachedBlocks
    && r.maxUsable == Usable(|prompt|, block)
    && r.status == Outcome(|prompt|, block, run)
  }

  function Outcome(promptLen: nat, block: int, run: EngineRun): Status {
    if CheckMetrics(run.cachedTokens, run.cachedBlocks, Usable(promptLen, block), block).Some? then MetricFailed
    else if run.raised then ModelFailed
    else Success
  }

  /** The cached prefix kept after the first `n` turns; `before` is the one kept before the example. */
  ghost function Kept(init: seq<int>, turns: seq<seq<int>>, runs: seq<EngineRun>, block: int,
                      before: Option<seq<int>>, n: nat): Option<seq<int>>
    requires n <= |turns| && n <= |runs|
  {
    if n == 0 then before
    else if Outcome(|init + turns[n - 1]|, block, runs[n - 1]) == Success
      then Some(init + turns[n - 1] + runs[n - 1].generated)
    else Kept(init, turns, runs, block, before, n - 1)
  }

  /** The list of kept prefixes that the turn after the first `n` compares its input with. */
  ghost function Candidates(init: seq<int>, turns: seq<seq<int>>, runs: seq<EngineRun>, block: int,
                            before: Option<seq<int>>, n: nat): seq<seq<int>>
    requires n <= |turns| && n <= |runs|
  {
    if n == 0 then []
    else
      var rest := Candidates(init, turns, runs, block, before, n - 1);
      var kept := Kept(init, turns, runs, block, before, n);
      if kept.Some? then rest + [kept.value] else rest
  }

  ghost predicate IsPlan(n: nat, init: seq<int>, candidates: seq<seq<int>>, input: seq<int>) {
    && (candidates == [] ==> n == |init|)
    && (candidates != [] ==> exists c :: c in candidates && CommonPrefix(c, input) == n)
    && forall c :: c in candidates ==> CommonPrefix(c, input) <= n
  }

  /** One of the first `n` turns of the example was served and passed the metric check. */
  ghost predicate Served(init: seq<int>, turns: seq<seq<int>>, runs: seq<EngineRun>, block: int, n: nat)
    requires n <= |turns| && n <= |runs|
  {
    exists j :: 0 <= j < n && Outcome(|init + turns[j]|, block, runs[j]) == Success
  }

  /** Record `r` describes turn `i`, and its plan is the longest prefix shared with a prefix kept since the example began. */
  ghost predicate DescribesTurn(r: Record, init: seq<int>, turns: seq<seq<int>>, runs: seq<EngineRun>, block: int,
                                before: Option<seq<int>>, i: nat)
    requires i < |turns| && i < |runs|
  {
    && Describes(r, init + turns[i], r.plannedReusable, block, runs[i])
    && IsPlan(r.plannedReusable, init, Candidates(init, turns, runs, block, before, i), init + turns[i])
  }

  lemma {:induction false} CandidateShapes(init: seq<int>, turns: seq<seq<int>>, runs: seq<EngineRun>, block: int,
                                           before: Option<seq<int>>, n: nat)
    requires n <= |turns| && n <= |runs|
    ensures !Served(init, turns, runs, block, n) ==>
              && Kept(init, turns, runs, block, before, n) == before
              && forall c :: c in Candidates(init, turns, runs, block, before, n) <==> n > 0 && before == Some(c)
    ensures Served(init, turns, runs, block, n) ==>
              && Kept(init, turns, runs, block, before, n).Some?
              && init <= Kept(init, turns, runs, block, before, n).value
              && Kept(init, turns, runs, block, before, n).value in Candidates(init, turns, runs, block, before, n)
  {
    if n > 0 {
      CandidateShapes(init, turns, runs, block, before, n - 1);
    }
  }

  /**
   The plan of the next turn covers the shared context exactly when an earlier turn of the example was served,
   or nothing has been kept yet, or the prefix kept from before the example happens to share the context.
   */
  lemma SharedContextPlanned(init: seq<int>, turns: seq<seq<int>>, runs: seq<EngineRun>, block: int,
                             before: Option<seq<int>>, n: nat, plan: nat)
    requires n < |turns| && n <= |runs|
    requires IsPlan(plan, init, Candidates(init, turns, runs, block, before, n), init + turns[n])
    ensures plan <= |init + turns[n]|
    ensures plan >= |init| <==>
            n == 0 || before == None || Served(init, turns, runs, block, n)
            || CommonPrefix(before.value, init + turns[n]) >= |init|
  {
    var input := init + turns[n];
    CandidateShapes(init, turns, runs, block, before, n);
    if Served(init, turns, runs, block, n) {
      var kept := Kept(init, turns, runs, block, before, n).value;
      assert kept[..|init|] == init && input[..|init|] == init;
      CommonPrefixLongest(kept, input, |init|);
    }
  }

  // ----- the same turn by turn, without the list of kept prefixes

  /** The engine answered, with a whole number of cached blocks that leaves a prompt token to compute. */
  ghost predicate Passes(promptLen: nat, block: int, run: EngineRun) {
    && !run.raised && run.cachedBlocks >= 0
    && (run.cachedBlocks == 0 ==> run.cachedTokens == 0)
    && (run.cachedBlocks > 0 ==> block > 0 && run.cachedTokens == run.cachedBlocks * block && run.cachedTokens < promptLen)
  }

  /** A request whose figures do not fit counts as such, whether or not the engine raised. */
  lemma OutcomeExactly(promptLen: nat, block: int, run: EngineRun)
    ensures Outcome(promptLen, block, run) == Success <==> Passes(promptLen, block, run)
    ensures Outcome(promptLen, block, run) == ModelFailed <==> run.raised && Passes(promptLen, block, run.(raised := false))
  {
    ChecksPass(run.cachedTokens, run.cachedBlocks, promptLen, block);
  }

  lemma PassesExactly(promptLen: nat, block: int, run: EngineRun)
    ensures Outcome(promptLen, block, run) == Success <==> Passes(promptLen, block, run)
  {
    ChecksPass(run.cachedTokens, run.cachedBlocks, promptLen, block);
  }

  ghost predicate TurnPasses(init: seq<int>, turns: seq<seq<int>>, runs: seq<EngineRun>, block: int, j: nat)
    requires j < |turns| && j < |runs|
  {
    Passes(|init| + |turns[j]|, block, runs[j])
  }

  /** What the engine may hold before turn `i`: an earlier turn that passed, or what was kept before if the first did not. */
  ghost predicate Held(init: seq<int>, turns: seq<seq<int>>, runs: seq<EngineRun>, block: int, before: Option<seq<int>>,
                       i: nat, c: seq<int>)
    requires i <= |turns| && i <= |runs|
  {
    || (exists j :: 0 <= j < i && TurnPasses(init, turns, runs, block, j) && c == init + turns[j] + runs[j].generated)
    || (i > 0 && before == Some(c) && !TurnPasses(init, turns, runs, block, 0))
  }

  /** The first `n` tokens of both are the same, and no more. */
  ghost predicate Share(left: seq<int>, right: seq<int>, n: nat) {
    && n <= |left| && n <= |right| && left[..n] == right[..n]
    && (n < |left| && n < |right| ==> left[n] != right[n])
  }

  /** Turn `i` is planned with the longest prefix its input shares with what may be held, or the context if nothing is. */
  ghost predicate PlannedAs(plan: nat, init: seq<int>, turns: seq<seq<int>>, runs: seq<EngineRun>, block: int,
                            before: Option<seq<int>>, i: nat)
    requires i < |turns| && i < |runs|
  {
    var input := init + turns[i];
    && (forall c: seq<int>, n: nat :: Held(init, turns, runs, block, before, i, c) && Share(c, input, n) ==> n <= plan)
    && if exists c :: Held(init, turns, runs, block, before, i, c)
       then exists c :: Held(init, turns, runs, block, before, i, c) && Share(c, input, plan)
       else plan == |init|
  }

  lemma ShareExactly(left: seq<int>, right: seq<int>, n: nat)
    ensures Share(left, right, n) <==> n == CommonPrefix(left, right)
  {
    Mismatch(left, right);
    if Share(left, right, n) {
      CommonPrefixLongest(left, right, n);
    }
  }

  lemma {:induction false} KeptHeld(init: seq<int>, turns: seq<seq<int>>, runs: seq<EngineRun>, block: int,
                                    before: Option<seq<int>>, n: nat)
    requires 0 < n <= |turns| && n <= |runs| && Kept(init, turns, runs, block, before, n).Some?
    ensures Held(init, turns, runs, block, before, n, Kept(init, turns, runs, block, before, n).value)
  {
    assert |init + turns[n - 1]| == |init| + |turns[n - 1]|;
    PassesExactly(|init| + |turns[n - 1]|, block, runs[n - 1]);
    if TurnPasses(init, turns, runs, block, n - 1) {
    } else if n > 1 {
      KeptHeld(init, turns, runs, block, before, n - 1);
    }
  }

  /** Behind the first `n` turns the prefix of the last one that passed is kept, or the one from before if none did. */
  ghost predicate LastKept(kept: Option<seq<int>>, init: seq<int>, turns: seq<seq<int>>, runs: seq<EngineRun>, block: int,
                           before: Option<seq<int>>, n: nat)
    requires n <= |turns| && n <= |runs|
  {
    && (forall j :: 0 <= j < n && TurnPasses(init, turns, runs, block, j)
                    && (forall k :: j < k < n ==> !TurnPasses(init, turns, runs, block, k)) ==>
                      kept == Some(init + turns[j] + runs[j].generated))
    && ((forall j :: 0 <= j < n ==> !TurnPasses(init, turns, runs, block, j)) ==> kept == before)
  }

  lemma {:induction false} KeptLast(init: seq<int>, turns: seq<seq<int>>, runs: seq<EngineRun>, block: int,
                                    before: Option<seq<int>>, n: nat)
    requires n <= |turns| && n <= |runs|
    ensures LastKept(Kept(init, turns, runs, block, before, n), init, turns, runs, block, before, n)
  {
    if n > 0 {
      KeptLast(init, turns, runs, block, before, n - 1);
      assert |init + turns[n - 1]| == |init| + |turns[n - 1]|;
      PassesExactly(|init| + |turns[n - 1]|, block, runs[n - 1]);
      assert TurnPasses(init, turns, runs, block, n - 1) <==> Passes(|init| + |turns[n - 1]|, block, runs[n - 1]);
    }
  }

  /** One turn later there is one prefix more: the one kept then. */
  lemma HeldNext(init: seq<int>, turns: seq<seq<int>>, runs: seq<EngineRun>, block: int, before: Option<seq<int>>, n: nat,
                 c: seq<int>)
    requires 0 < n <= |turns| && n <= |runs|
    ensures Held(init, turns, runs, block, before, n, c) <==>
            Held(init, turns, runs, block, before, n - 1, c) || Kept(init, turns, runs, block, before, n) == Some(c)
  {
    assert |init + turns[n - 1]| == |init| + |turns[n - 1]|;
    PassesExactly(|init| + |turns[n - 1]|, block, runs[n - 1]);
    if Kept(init, turns, runs, block, before, n) == Some(c) {
      KeptHeld(init, turns, runs, block, before, n);
    }
    if j :| 0 <= j < n - 1 && TurnPasses(init, turns, runs, block, j) && c == init + turns[j] + runs[j].generated {
      assert Held(init, turns, runs, block, before, n, c) && Held(init, turns, runs, block, before, n - 1, c);
    }
  }

  lemma {:induction false} CandidatesHeld(init: seq<int>, turns: seq<seq<int>>, runs: seq<EngineRun>, block: int,
                                          before: Option<seq<int>>, n: nat, c: seq<int>)
    requires n <= |turns| && n <= |runs|
    ensures c in Candidates(init, turns, runs, block, before, n) <==> Held(init, turns, runs, block, before, n, c)
  {
    if n > 0 {
      CandidatesHeld(init, turns, runs, block, before, n - 1, c);
      HeldNext(init, turns, runs, block, before, n, c);
    }
  }

  lemma PlanHeld(plan: nat, init: seq<int>, turns: seq<seq<int>>, runs: seq<EngineRun>, block: int, before: Option<seq<int>>, i: nat)
    requires i < |turns| && i < |runs|
    requires IsPlan(plan, init, Candidates(init, turns, runs, block, before, i), init + turns[i])
    ensures PlannedAs(plan, init, turns, runs, block, before, i)
  {
    var candidates, input := Candidates(init, turns, runs, block, before, i), init + turns[i];
    forall c ensures c in candidates <==> Held(init, turns, runs, block, before, i, c) {
      CandidatesHeld(init, turns, runs, block, before, i, c);
    }
    forall c, n ensures Share(c, input, n) <==> n == CommonPrefix(c, input) {
      ShareExactly(c, input, n);
    }
    if candidates != [] {
      assert candidates[0] in candidates;
    }
  }

  /** The records behind `earlier` describe the turns, one each, in order. */
  ghost predicate Recorded(earlier: seq<Record>, records: seq<Record>, init: seq<int>, turns: seq<seq<int>>, runs: seq<EngineRun>,
                           block: int, before: Option<seq<int>>)
  {
    && earlier <= records && |records| - |earlier| <= |turns| && |records| - |earlier| <= |runs|
    && forall i :: |earlier| <= i < |records| ==> DescribesTurn(records[i], init, turns, runs, block, before, i - |earlier|)
  }

  lemma RecordedNext(earlier: seq<Record>, records: seq<Record>, more: seq<Record>, init: seq<int>, turns: seq<seq<int>>,
                     runs: seq<EngineRun>, block: int, before: Option<seq<int>>)
    requires Recorded(earlier, records, init, turns, runs, block, before)
    requires |more| == |records| + 1 && more[..|records|] == records
    requires |records| - |earlier| < |turns| && |records| - |earlier| < |runs|
    requires DescribesTurn(more[|records|], init, turns, runs, block, before, |records| - |earlier|)
    ensures Recorded(earlier, more, init, turns, runs, block, before)
  {
    forall i | |earlier| <= i < |records| ensures more[i] == records[i] {
      assert more[i] == more[..|records|][i];
    }
  }

  /** The records behind `earlier` plan their turns with the longest prefix shared with what may be held. */
  ghost predicate Planned(earlier: seq<Record>, records: seq<Record>, init: seq<int>, turns: seq<seq<int>>, runs: seq<EngineRun>,
                          block: int, before: Option<seq<int>>)
    requires |records| - |earlier| <= |turns| && |records| - |earlier| <= |runs|
  {
    forall i :: |earlier| <= i < |records| ==> PlannedAs(records[i].plannedReusable, init, turns, runs, block, before, i - |earlier|)
  }

  lemma TurnPlanned(r: Record, init: seq<int>, turns: seq<seq<int>>, runs: seq<EngineRun>, block: int, before: Option<seq<int>>,
                    i: nat)
    requires i < |turns| && i < |runs| && DescribesTurn(r, init, turns, runs, block, before, i)
    ensures PlannedAs(r.plannedReusable, init, turns, runs, block, before, i)
  {
    PlanHeld(r.plannedReusable, init, turns, runs, block, before, i);
  }

  lemma RecordedPlanned(earlier: seq<Record>, records: seq<Record>, init: seq<int>, turns: seq<seq<int>>, runs: seq<EngineRun>,
                        block: int, before: Option<seq<int>>)
    requires Recorded(earlier, records, init, turns, runs, block, before)
    ensures Planned(earlier, records, init, turns, runs, block, before)
  {
    forall i | |earlier| <= i < |records|
      ensures PlannedAs(records[i].plannedReusable, init, turns, runs, block, before, i - |earlier|)
    {
      TurnPlanned(records[i], init, turns, runs, block, before, i - |earlier|);
    }
  }

  lemma EndsHeld(earlier: seq<Record>, records: seq<Record>, init: seq<int>, turns: seq<seq<int>>, runs: seq<EngineRun>,
                 block: int, before: Option<seq<int>>, n: nat)
    requires Recorded(earlier, records, init, turns, runs, block, before) && n <= |turns| && n <= |runs|
    ensures Planned(earlier, records, init, turns, runs, block, before)
    ensures LastKept(Kept(init, turns, runs, block, before, n), init, turns, runs, block, before, n)
  {
    KeptLast(init, turns, runs, block, before, n);
    RecordedPlanned(earlier, records, init, turns, runs, block, before);
  }

  /** One client: its trace and the last prefix the engine is known to hold. The block size is never zero. */
  class Client {
    const block: int
    var records: seq<Record>
    var kept: Option<seq<int>>

    /** A configured block size of zero falls back to 16. */
    constructor (configured: int)
      ensures block != 0 && (configured != 0 ==> block == configured) && (configured == 0 ==> block == 16)
      ensures records == [] && kept == None
    {
      block := if configured != 0 then configured else 16;
      records, kept := [], None;
    }

    method RunOneRequest(prompt: seq<int>, reusable: nat, run: EngineRun) returns (raised: bool)
      requires block != 0
      modifies this
      ensures raised == run.raised
      ensures |records| == |old(records)| + 1 && records[..|old(records)|] == old(records)
      ensures Describes(records[|old(records)|], prompt, reusable, block, run)
      ensures kept == if Outcome(|prompt|, block, run) == Success then Some(prompt + run.generated) else old(kept)
    {
      var eligible := Eligible(reusable, |prompt|, block);
      var usable := Usable(|prompt|, block);
      var status := if run.raised then ModelFailed else Success;
      if CheckMetrics(run.cachedTokens, run.cachedBlocks, usable, block).Some? {
        status := MetricFailed;
      }
      records := records +
      [Record(status, |prompt|, reusable, eligible.value, usable, run.cachedTokens, run.cachedBlocks)];
      if status == Success {
        kept := Some(prompt + run.generated);
      }
      raised := run.raised;
    }

    /** The largest common prefix over the kept prefixes. */
    method Plan(init: seq<int>, candidates: seq<seq<int>>, input: seq<int>) returns (plan: nat)
      ensures IsPlan(plan, init, candidates, input)
    {
      if candidates == [] {
        return |init|;
      }
      plan := CommonPrefixLen(candidates[0], input);
      var i := 1;
      while i < |candidates|
        invariant 1 <= i <= |candidates|
        invariant forall c :: c in candidates[..i] ==> CommonPrefix(c, input) <= plan
        invariant exists c :: c in candidates[..i] && CommonPrefix(c, input) == plan
      {
        var n := CommonPrefixLen(candidates[i], input);
        assert candidates[..i + 1] == candidates[..i] + [candidates[i]];
        assert candidates[i] in candidates[..i + 1];
        if n > plan {
          plan := n;
        }
        i := i + 1;
      }
      assert candidates[..i] == candidates;
    }

    /** One turn, planned with the prefixes kept so far. */
    method ServeTurn(init: seq<int>, turns: seq<seq<int>>, runs: seq<EngineRun>, i: nat, candidates: seq<seq<int>>,
                     ghost before: Option<seq<int>>) returns (raised: bool)
      requires block != 0 && i < |turns| == |runs|
      requires kept == Kept(init, turns, runs, block, before, i) && candidates == Candidates(init, turns, runs, block, before, i)
      modifies this
      ensures raised == runs[i].raised
      ensures |records| == |old(records)| + 1 && records[..|old(records)|] == old(records)
      ensures DescribesTurn(records[|old(records)|], init, turns, runs, block, before, i)
      ensures kept == Kept(init, turns, runs, block, before, i + 1) && (raised ==> kept == old(kept))
    {
      var plan := Plan(init, candidates, init + turns[i]);
      raised := RunOneRequest(init + turns[i], plan, runs[i]);
    }

    /**
     The turns after the shared context. Every turn up to the first that raises leaves one record, whose plan is
     the longest prefix shared with a prefix kept since the example began.
     */
    method TestScdq(init: seq<int>, turns: seq<seq<int>>, runs: seq<EngineRun>) returns (served: nat, raised: bool)
      requires block != 0 && |runs| == |turns|
      modifies this
      ensures served <= |turns| && (forall i :: 0 <= i < served ==> !runs[i].raised)
      ensures raised == (served < |turns|) && (raised ==> runs[served].raised)
      ensures |records| == |old(records)| + served + (if raised then 1 else 0)
      ensures Recorded(old(records), records, init, turns, runs, block, old(kept))
      ensures kept == Kept(init, turns, runs, block, old(kept), served)
      ensures Planned(old(records), records, init, turns, runs, block, old(kept))
      ensures LastKept(kept, init, turns, runs, block, old(kept), served)
    {
      var candidates := [];
      served := 0;
      while served < |turns|
        invariant served <= |turns| && (forall i :: 0 <= i < served ==> !runs[i].raised)
        invariant kept == Kept(init, turns, runs, block, old(kept), served)
        invariant candidates == Candidates(init, turns, runs, block, old(kept), served)
        invariant |records| == |old(records)| + served
        invariant Recorded(old(records), records, init, turns, runs, block, old(kept))
      {
        ghost var earlier := records;
        raised := ServeTurn(init, turns, runs, served, candidates, old(kept));
        RecordedNext(old(records), earlier, records, init, turns, runs, block, old(kept));
        if raised {
          EndsHeld(old(records), records, init, turns, runs, block, old(kept), served);
          return;
        }
        if kept.Some? {
          candidates := candidates + [kept.value];
        }
        served := served + 1;
      }
      EndsHeld(old(records), records, init, turns, runs, block, old(kept), served);
      raised := false;
    }
  }

  // ----- a plan below the shared context

  /** A first turn whose 5 cached tokens are not a whole block, and a second one without a hit. */
  const FailedTurns: seq<EngineRun> := [EngineRun(false, 5, 1, []), EngineRun(false, 0, 0, [])]

  /** After a failed first turn, the only prefix to compare with is the one kept from before. */
  lemma StaleCandidates(before: seq<int>)
    requires before != [] && before[0] != 1
    ensures Candidates([1, 2], [[3], [4]], FailedTurns, 16, Some(before), 1) == [before]
    ensures CommonPrefix(before, [1, 2] + [4]) == 0
  {
    assert Kept([1, 2], [[3], [4]], FailedTurns, 16, Some(before), 1) == Some(before);
    assert Candidates([1, 2], [[3], [4]], FailedTurns, 16, Some(before), 0) == [];
  }

  const Init: seq<int> := [1, 2]

  const Turns: seq<seq<int>> := [[3], [4]]

  /**
   An example is served, the next one's first turn fails the metric check, and its second turn is planned below the
   context that both its turns share.
   */
  method StaleSession() returns (records: seq<Record>)
    ensures |records| == 3 && records[0].status.Success? && records[1].status.MetricFailed?
    ensures DescribesTurn(records[1], Init, Turns, FailedTurns, 16, Some([9] + [8]), 0)
    ensures DescribesTurn(records[2], Init, Turns, FailedTurns, 16, Some([9] + [8]), 1)
    ensures records[2].plannedReusable < |Init|
  {
    var client := new Client(16);
    var served, raised := client.TestScdq([9], [[8]], [EngineRun(false, 0, 0, [])]);
    var before := [9] + [8] + [];
    assert before == [9] + [8];
    assert !raised && client.kept == Some(before);
    StaleCandidates(before);
    served, raised := client.TestScdq(Init, Turns, FailedTurns);
    assert !raised && served == 2 && |client.records| == 3;
    assert DescribesTurn(client.records[1], Init, Turns, FailedTurns, 16, Some(before), 0);
    assert DescribesTurn(client.records[2], Init, Turns, FailedTurns, 16, Some(before), 1);
    assert client.records[2].plannedReusable == 0 by {
      assert before in Candidates(Init, Turns, FailedTurns, 16, Some(before), 1);
    }
    return client.records;
  }

  // ----- the summary

  function Covered(r: Record): int { if r.cachedTokens <= r.plannedEligible then r.cachedTokens else r.plannedEligible }

  function Beyond(r: Record): int {
    if r.cachedTokens > r.plannedEligible then r.cachedTokens - r.plannedEligible else 0
  }

  function Sum(f: Record -> int, records: seq<Record>): int {
    if records == [] then 0 else Sum(f, records[..|records| - 1]) + f(records[|records| - 1])
  }

  function Successes(records: seq<Record>): seq<Record> {
    if records == [] then []
    else Successes(records[..|records| - 1]) +
         if records[|records| - 1].status == Success then [records[|records| - 1]] else []
  }

  lemma {:induction false} SuccessesAre(records: seq<Record>)
    ensures forall r :: r in Successes(records) <==> r in records && r.status == Success
    ensures |Successes(records)| <= |records|
    ensures |Successes(records)| == |records| <==> forall r :: r in records ==> r.status == Success
  {
    if records != [] {
      SuccessesAre(records[..|records| - 1]);
      assert records == records[..|records| - 1] + [records[|records| - 1]];
    }
  }

  ghost function SuccessAt(records: seq<Record>): nat -> bool { (i: nat) => i < |records| && records[i].status == Success }

  ghost function RecordAt(records: seq<Record>): (nat, Record) -> bool { (i: nat, r: Record) => i < |records| && r == records[i] }

  lemma {:induction false} SuccessesPicked(records: seq<Record>, n: nat)
    requires n <= |records|
    ensures Picked(n, SuccessAt(records), RecordAt(records), Successes(records[..n]))
  {
    if n == 0 {
      PickedNone(SuccessAt(records), RecordAt(records));
    } else {
      SuccessesPicked(records, n - 1);
      assert records[..n][..n - 1] == records[..n - 1];
      if records[n - 1].status == Success {
        PickedMore(n - 1, SuccessAt(records), RecordAt(records), Successes(records[..n - 1]), records[n - 1]);
      } else {
        PickedSkip(n - 1, SuccessAt(records), RecordAt(records), Successes(records[..n - 1]));
      }
    }
  }

  lemma SumSnoc(f: Record -> int, records: seq<Record>, r: Record)
    ensures Sum(f, records + [r]) == Sum(f, records) + f(r)
  {
    assert (records + [r])[..|records|] == records;
  }

  function CachedOf(r: Record): int { r.cachedTokens }
  function PromptOf(r: Record): int { r.promptTokens }
  function PlannedOf(r: Record): int { r.plannedEligible }
  function BeyondHit(r: Record): int { if Beyond(r) > 0 then 1 else 0 }
  function NonEmpty(r: Record): int { if r.promptTokens > 0 then 1 else 0 }
  function NotRecomputed(r: Record): int { r.promptTokens - r.cachedTokens }

  lemma {:induction false} SumDifference(f: Record -> int, g: Record -> int, h: Record -> int, records: seq<Record>)
    requires forall r :: f(r) == g(r) + h(r)
    ensures Sum(f, records) == Sum(g, records) + Sum(h, records)
  {
    if records != [] {
      SumDifference(f, g, h, records[..|records| - 1]);
    }
  }

  lemma {:induction false} SumAtMost(f: Record -> int, g: Record -> int, records: seq<Record>)
    requires forall r :: r in records ==> f(r) <= g(r)
    ensures Sum(f, records) <= Sum(g, records)
  {
    if records != [] {
      SumAtMost(f, g, records[..|records| - 1]);
    }
  }

  /** What one record adds to each total: of its cached tokens, those within the planned ones are covered, the rest beyond. */
  lemma OneRecord(r: Record)
    ensures Sum(PromptOf, [r]) == r.promptTokens && Sum(CachedOf, [r]) == r.cachedTokens && Sum(PlannedOf, [r]) == r.plannedEligible
    ensures Sum(Covered, [r]) <= r.cachedTokens && Sum(Covered, [r]) <= r.plannedEligible
    ensures Sum(Covered, [r]) == r.cachedTokens || Sum(Covered, [r]) == r.plannedEligible
    ensures Sum(Beyond, [r]) == r.cachedTokens - Sum(Covered, [r])
    ensures Sum(BeyondHit, [r]) == if r.cachedTokens > r.plannedEligible then 1 else 0
  {
    assert [r][..0] == [];
  }

  /** The totals over the successful records: nothing cached is lost between covered and beyond. */
  method ReuseTotals(records: seq<Record>) returns (planned: int, covered: int, beyond: int, beyondRequests: nat)
    ensures planned == Sum(PlannedOf, records) && covered + beyond == Sum(CachedOf, records)
    ensures covered <= planned && beyond >= 0
    ensures covered == Sum(Covered, records) && beyond == Sum(Beyond, records)
    ensures beyondRequests == Sum(BeyondHit, records) && (beyond == 0 <==> beyondRequests == 0)
  {
    planned, covered, beyond, beyondRequests := 0, 0, 0, 0;
    var i := 0;
    while i < |records|
      invariant 0 <= i <= |records|
      invariant planned == Sum(PlannedOf, records[..i]) && covered + beyond == Sum(CachedOf, records[..i])
      invariant covered <= planned && beyond >= 0
      invariant covered == Sum(Covered, records[..i]) && beyond == Sum(Beyond, records[..i])
      invariant beyondRequests == Sum(BeyondHit, records[..i]) && (beyond == 0 <==> beyondRequests == 0)
    {
      var r := records[i];
      assert records[..i + 1] == records[..i] + [r];
      SumSnoc(PlannedOf, records[..i], r);
      SumSnoc(CachedOf, records[..i], r);
      SumSnoc(BeyondHit, records[..i], r);
      SumSnoc(Covered, records[..i], r);
      SumSnoc(Beyond, records[..i], r);
      planned, covered, beyond := planned + r.plannedEligible, covered + Covered(r), beyond + Beyond(r);
      beyondRequests := beyondRequests + if Beyond(r) > 0 then 1 else 0;
      i := i + 1;
    }
    assert records[..i] == records;
  }

  method Summarize(records: seq<Record>) returns (s: Summary)
    ensures s.status == None <==> records == []
    ensures s.status == Some(Success) <==> records != [] && forall r :: r in records ==> r.status == Success
    ensures s.successes == |Successes(records)| && Picked(|records|, SuccessAt(records), RecordAt(records), Successes(records))
    ensures s.covered == Sum(Covered, Successes(records)) && s.beyond == Sum(Beyond, Successes(records))
    ensures s.promptTokens == Sum(PromptOf, Successes(records)) && s.cachedTokens == Sum(CachedOf, Successes(records))
    ensures s.recomputed == s.promptTokens - s.cachedTokens
    ensures s.covered + s.beyond == s.cachedTokens && s.covered <= s.planned && s.beyond >= 0
    ensures s.planned == Sum(PlannedOf, Successes(records))
    ensures s.beyondRequests == Sum(BeyondHit, Successes(records)) && (s.beyond == 0 <==> s.beyondRequests == 0)
  {
    var success := Successes(records);
    SuccessesAre(records);
    SuccessesPicked(records, |records|);
    assert records[..|records|] == records;
    var planned, covered, beyond, beyondRequests := ReuseTotals(success);
    var prompt, cached := Sum(PromptOf, success), Sum(CachedOf, success);
    var status := if records == [] then None else if |success| == |records| then Some(Success) else Some(MetricFailed);
    s := Summary(status, |success|, prompt, cached, prompt - cached, planned, covered, beyond, beyondRequests);
  }

  /** What `RunOneRequest` writes: a record of a request made with this block size. */
  ghost predicate Written(r: Record, block: int) {
    exists prompt, run :: Describes(r, prompt, r.plannedReusable, block, run)
  }

  lemma WrittenBounds(r: Record, block: int)
    requires Written(r, block) && r.status == Success
    ensures 0 <= r.cachedTokens && NonEmpty(r) <= NotRecomputed(r)
  {
    var prompt, run :| Describes(r, prompt, r.plannedReusable, block, run);
    ChecksPass(r.cachedTokens, r.cachedBlocks, r.promptTokens, block);
    if r.cachedBlocks > 0 {
      Multiple(r.cachedBlocks, block);
    }
  }

  /** Every successful request with a prompt recomputes a token, and cached tokens never exceed prompt tokens. */
  lemma RecomputedPerSuccess(records: seq<Record>, block: int)
    requires forall r :: r in records ==> Written(r, block)
    ensures var success := Successes(records);
            && 0 <= Sum(CachedOf, success)
            && Sum(NonEmpty, success) <= Sum(PromptOf, success) - Sum(CachedOf, success)
            && ((forall r :: r in success ==> r.promptTokens > 0) ==> Sum(NonEmpty, success) == |success|)
  {
    var success := Successes(records);
    SuccessesAre(records);
    forall r | r in success ensures NonEmpty(r) <= NotRecomputed(r) && 0 <= CachedOf(r) {
      WrittenBounds(r, block);
    }
    SumAtMost(NonEmpty, NotRecomputed, success);
    SumDifference(PromptOf, CachedOf, NotRecomputed, success);
    if forall r :: r in success ==> r.promptTokens > 0 {
      NonEmptyCount(success);
    }
    SumZero(success);
    SumAtMost(Zero, CachedOf, success);
  }

  function Zero(r: Record): int { 0 }

  lemma {:induction false} SumZero(records: seq<Record>)
    ensures Sum(Zero, records) == 0
  {
    if records != [] {
      SumZero(records[..|records| - 1]);
    }
  }

  /** With no empty prompt, at least one token is recomputed per success. */
  lemma {:induction false} NonEmptyCount(records: seq<Record>)
    requires forall r :: r in records ==> r.promptTokens > 0
    ensures Sum(NonEmpty, records) == |records|
  {
    if records != [] {
      NonEmptyCount(records[..|records| - 1]);
    }
  }
}
