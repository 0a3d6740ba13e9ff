/**
 The bounded parallel scheduler on a pool that starts its rows first in, first out, as a process pool does: of the rows
 handed over before one that is done, fewer than `workers` can be unfinished. Here is exactly which failing rows such a
 pool can report, and when it always reports what the reference does.
 */
module FifoPreparation {
  import opened Wrappers
  import opened Sequences
  import opened OfficialPreparation

  /** Rows pending before `f` that are not done. */
  ghost function Undone(pending: set<nat>, done: seq<nat>, f: nat): set<nat> {
    set g | g in pending && g < f && g !in done
  }

  ghost predicate Fifo(choose: (nat, set<nat>) -> seq<nat>, workers: int) {
    forall n, pending, f :: f in choose(n, pending) ==> |Undone(pending, choose(n, pending), f)| < workers
  }

  /** The rows that succeed and fewer than `workers` failing rows precede: those a blocked pool still gets through. */
  ghost function Free<R>(job: Job<R>, workers: int): set<nat> {
    set f: nat | f < |job.rows| && PrepareOne(job, job.rows[f]).Ok? && |Failing(job, f)| < workers
  }

  /** Row `i` fails with `e`, and is submitted before the pool is blocked. */
  ghost predicate FifoReportable<R>(job: Job<R>, i: int, e: Error, workers: int)
    requires workers > 0
  {
    FailsAt(job, i, e) && i < Window(workers, |job.rows|) + |Free(job, workers)|
  }

  ghost function TakenRows<R>(p: Pool<R>): set<nat> { set i: nat | i < |p.selected| && p.selected[i].Some? }

  ghost function Below(n: nat): (r: set<nat>)
    ensures |r| == n && forall i :: i in r <==> 0 <= i < n
  {
    if n == 0 then {} else Below(n - 1) + {n - 1}
  }

  lemma TakenOrPending<R>(n: nat, p: Pool<R>)
    requires Shape(n, p)
    ensures TakenRows(p) + p.pending.Keys == Below(p.next) && TakenRows(p) !! p.pending.Keys
  {
  }

  /** Every submitted row is taken or pending. */
  lemma SubmittedCount<R>(job: Job<R>, p: Pool<R>, most: nat)
    requires Running(job, p, most)
    ensures p.next == |TakenRows(p)| + |p.pending|
  {
    TakenOrPending(|job.rows|, p);
    UnionSize(TakenRows(p), p.pending.Keys);
    assert |p.pending.Keys| == |p.pending|;
  }

  lemma UnionSize(a: set<nat>, b: set<nat>)
    requires a !! b
    ensures |a + b| == |a| + |b|
  {
  }

  // ----- what is reported is reportable

  lemma TakenNext<R>(job: Job<R>, p: Pool<R>, f: nat, most: nat)
    requires Running(job, p, most) && f in p.pending && PrepareOne(job, job.rows[f]).Ok?
    ensures TakeOne(job, f, p).Going? && TakenRows(TakeOne(job, f, p).pool) == TakenRows(p) + {f}
  {
    ReplaceRunning(job, p, f, most);
    TakenStored(p, TakeOne(job, f, p).pool, f, ItemAt(job, f));
  }

  lemma TakenStored<R>(p: Pool<R>, q: Pool<R>, f: nat, item: Item<R>)
    requires f < |p.selected| && q.selected == p.selected[f := Some(item)]
    ensures TakenRows(q) == TakenRows(p) + {f}
  {
  }

  /** A batch either fails at one of its rows, or all its rows succeed and are taken. */
  ghost predicate BatchTaken<R>(job: Job<R>, done: seq<nat>, p: Pool<R>, o: Outcome<R>) {
    match o
    case Failed(e, _) => exists f :: f in done && FailsAt(job, f, e)
    case Going(q) =>
      && (forall f :: f in done ==> f < |job.rows| && PrepareOne(job, job.rows[f]).Ok?)
      && TakenRows(q) == TakenRows(p) + set f | f in done
  }

  lemma BatchNext<R>(job: Job<R>, done: seq<nat>, p: Pool<R>, q: Pool<R>, o: Outcome<R>)
    requires done != [] && BatchTaken(job, done[1..], q, o)
    requires done[0] < |job.rows| && PrepareOne(job, job.rows[done[0]]).Ok? && TakenRows(q) == TakenRows(p) + {done[0]}
    ensures BatchTaken(job, done, p, o)
  {
    assert done == [done[0]] + done[1..];
  }

  lemma {:induction false} TakeDoneRows<R>(job: Job<R>, done: seq<nat>, p: Pool<R>, most: nat)
    requires Running(job, p, most) && Among(done, p.pending.Keys)
    ensures BatchTaken(job, done, p, TakeDone(job, done, p, most))
    decreases |done|
  {
    if done != [] {
      TakeDoneStep(job, done, p, most);
      var o := TakeOne(job, done[0], p);
      if o.Going? {
        TakenNext(job, p, done[0], most);
        TakeDoneRows(job, done[1..], o.pool, most);
        BatchNext(job, done, p, o.pool, TakeDone(job, done, p, most));
      } else {
        assert FailsAt(job, done[0], o.error);
      }
    }
  }

  /** With all failing rows before `f` pending and not done, few enough of them precede it. */
  lemma DoneIsFree<R>(job: Job<R>, p: Pool<R>, most: nat, done: seq<nat>, f: nat, workers: int)
    requires Running(job, p, most) && Among(done, p.pending.Keys) && f in done
    requires forall g :: g in done ==> PrepareOne(job, job.rows[g]).Ok?
    requires |Undone(p.pending.Keys, done, f)| < workers
    ensures f in Free(job, workers)
  {
    assert Failing(job, f) <= Undone(p.pending.Keys, done, f);
    SubsetSize(Failing(job, f), Undone(p.pending.Keys, done, f));
  }

  ghost predicate FifoSound<R>(job: Job<R>, o: Outcome<R>, workers: int)
    requires workers > 0
  {
    o.Failed? ==> exists i :: FifoReportable(job, i, o.error, workers)
  }

  lemma PendingReportable<R>(job: Job<R>, p: Pool<R>, workers: int, f: nat, e: Error)
    requires workers > 0 && Running(job, p, Window(workers, |job.rows|)) && TakenRows(p) <= Free(job, workers)
    requires f in p.pending && FailsAt(job, f, e)
    ensures FifoReportable(job, f, e, workers)
  {
    SubmittedCount(job, p, Window(workers, |job.rows|));
    SubsetSize(TakenRows(p), Free(job, workers));
  }

  lemma {:induction false} FifoWaits<R>(job: Job<R>, choose: (nat, set<nat>) -> seq<nat>, n: nat, p: Pool<R>, workers: int)
    requires workers > 0 && Running(job, p, Window(workers, |job.rows|)) && TakenRows(p) <= Free(job, workers)
    requires Completes(choose) && Fifo(choose, workers)
    ensures FifoSound(job, Waits(job, choose, n, p, Window(workers, |job.rows|)), workers)
    decreases Left(p, |job.rows|)
  {
    var most := Window(workers, |job.rows|);
    if p.pending != map[] {
      var done := choose(n, p.pending.Keys);
      assert Batch(done, p.pending.Keys);
      TakeDoneRows(job, done, p, most);
      var o := TakeDone(job, done, p, most);
      if o.Failed? {
        var f :| f in done && FailsAt(job, f, o.error);
        PendingReportable(job, p, workers, f, o.error);
      } else {
        forall f | f in done ensures f in Free(job, workers) {
          DoneIsFree(job, p, most, done, f, workers);
        }
        FifoWaits(job, choose, n + 1, o.pool, workers);
      }
    }
  }

  lemma FilledTaken<R>(job: Job<R>, n: nat)
    requires n <= |job.rows|
    ensures TakenRows(Filled(job, n)) == {}
  {
  }

  /** A first-in first-out pool reports a row only if it is submitted before the pool is blocked. */
  lemma FifoReports<R>(job: Job<R>, workers: int, choose: (nat, set<nat>) -> seq<nat>)
    requires workers > 0 && job.rows != [] && Completes(choose) && Fifo(choose, workers)
    ensures FifoSound(job, PoolRun(job, workers, choose), workers)
  {
    FilledTaken(job, Window(workers, |job.rows|));
    FifoWaits(job, choose, 0, Filled(job, Window(workers, |job.rows|)), workers);
  }

  // ----- every such row is reported by some first-in first-out pool

  ghost function SeqOf(s: set<nat>): (r: seq<nat>)
    ensures (forall x :: x in r <==> x in s) && forall i, j :: 0 <= i < j < |r| ==> r[i] != r[j]
  {
    if s == {} then []
    else
      var x :| x in s;
      [x] + SeqOf(s - {x})
  }

  /** All of the set, the target first if it is there. */
  ghost function TargetFirst(s: set<nat>, target: nat): (r: seq<nat>)
    ensures (forall x :: x in r <==> x in s) && forall i, j :: 0 <= i < j < |r| ==> r[i] != r[j]
    ensures s != {} ==> Batch(r, s)
    ensures target in s ==> r != [] && r[0] == target
  {
    var rest := SeqOf(s - {target});
    var r := if target in s then [target] + rest else SeqOf(s);
    assert forall i :: 0 <= i < |rest| ==> rest[i] in rest;
    assert forall i :: 0 <= i < |r| ==> r[i] in r;
    assert s != {} ==> r != [] by {
      if x :| x in s {
        assert x in r;
      }
    }
    r
  }

  ghost function Earlier(pending: set<nat>, f: nat): set<nat> { set g | g in pending && g < f }

  /** The first pending row that succeeds, if few enough rows precede it. */
  ghost predicate Unblocked<R>(job: Job<R>, workers: int, pending: set<nat>, f: nat) {
    && f in pending && f < |job.rows| && PrepareOne(job, job.rows[f]).Ok?
    && (forall g :: g in pending && g < f && g < |job.rows| ==> PrepareOne(job, job.rows[g]).Err?)
    && |Earlier(pending, f)| < workers
  }

  /** Succeeding rows go one by one until the pool is blocked; then all pending rows are done, the target first. */
  ghost function FifoSteer<R>(job: Job<R>, target: nat, workers: int, pending: set<nat>): (done: seq<nat>)
    ensures pending != {} ==> Batch(done, pending)
    ensures workers > 0 ==> forall f :: f in done ==> |Undone(pending, done, f)| < workers
  {
    if exists f :: Unblocked(job, workers, pending, f) then
      var f :| Unblocked(job, workers, pending, f);
      assert Undone(pending, [f], f) == Earlier(pending, f);
      [f]
    else
      var done := TargetFirst(pending, target);
      assert forall f :: Undone(pending, done, f) == {};
      done
  }

  ghost function FifoSteering<R>(job: Job<R>, target: nat, workers: int): (choose: (nat, set<nat>) -> seq<nat>)
    requires workers > 0
    ensures Completes(choose) && Fifo(choose, workers)
    ensures forall n, pending :: choose(n, pending) == FifoSteer(job, target, workers, pending)
  {
    (n: nat, pending: set<nat>) => FifoSteer(job, target, workers, pending)
  }

  lemma {:induction false} LeastSuccess<R>(job: Job<R>, pending: set<nat>, f: nat) returns (least: nat)
    requires f in pending && f < |job.rows| && PrepareOne(job, job.rows[f]).Ok?
    ensures least in pending && least <= f && PrepareOne(job, job.rows[least]).Ok?
    ensures forall g :: g in pending && g < least && g < |job.rows| ==> PrepareOne(job, job.rows[g]).Err?
  {
    if g :| g in pending && g < f && PrepareOne(job, job.rows[g]).Ok? {
      least := LeastSuccess(job, pending, g);
    } else {
      least := f;
    }
  }

  /** A pending row that succeeds and is not after a free row leaves the pool unblocked. */
  lemma FreeUnblocks<R>(job: Job<R>, p: Pool<R>, most: nat, workers: int, f: nat, free: nat)
    requires Running(job, p, most) && f in p.pending && PrepareOne(job, job.rows[f]).Ok? && f <= free && free in Free(job, workers)
    ensures exists least :: Unblocked(job, workers, p.pending.Keys, least)
  {
    var least := LeastSuccess(job, p.pending.Keys, f);
    assert Earlier(p.pending.Keys, least) <= Failing(job, free);
    SubsetSize(Earlier(p.pending.Keys, least), Failing(job, free));
    assert Unblocked(job, workers, p.pending.Keys, least);
  }

  lemma PendingBelow<R>(job: Job<R>, p: Pool<R>, most: nat)
    requires Running(job, p, most)
    ensures |p.pending| <= p.next
  {
    SubmittedCount(job, p, most);
  }

  lemma WindowWide(workers: int, n: nat)
    requires workers > 0
    ensures Window(workers, n) == n || workers <= Window(workers, n) < n
  {
  }

  /** A blocked pool has taken every free row. */
  lemma BlockedTookFree<R>(job: Job<R>, p: Pool<R>, workers: int, free: nat)
    requires workers > 0 && Running(job, p, Window(workers, |job.rows|)) && free in Free(job, workers)
    requires forall f :: !Unblocked(job, workers, p.pending.Keys, f)
    ensures free in TakenRows(p)
  {
    var most := Window(workers, |job.rows|);
    if free in p.pending {
      FreeUnblocks(job, p, most, workers, free, free);
      assert false;
    }
    if free >= p.next {
      if f :| f in p.pending && PrepareOne(job, job.rows[f]).Ok? {
        FreeUnblocks(job, p, most, workers, f, free);
        assert false;
      }
      AllBlocked(job, p, workers, free);
      assert false;
    }
  }

  lemma AllBlocked<R>(job: Job<R>, p: Pool<R>, workers: int, free: nat)
    requires workers > 0 && Running(job, p, Window(workers, |job.rows|)) && free in Free(job, workers) && free >= p.next
    ensures exists f :: f in p.pending && PrepareOne(job, job.rows[f]).Ok?
  {
    if forall f :: f in p.pending ==> PrepareOne(job, job.rows[f]).Err? {
      var most := Window(workers, |job.rows|);
      assert |p.pending.Keys| == |p.pending|;
      assert p.pending.Keys <= Failing(job, free);
      SubsetSize(p.pending.Keys, Failing(job, free));
      PendingBelow(job, p, most);
      WindowWide(workers, |job.rows|);
      assert false;
    }
  }

  /** A blocked pool has every reportable row pending. */
  lemma BlockedHasTarget<R>(job: Job<R>, p: Pool<R>, workers: int, target: nat, e: Error)
    requires workers > 0 && Running(job, p, Window(workers, |job.rows|)) && FifoReportable(job, target, e, workers)
    requires forall f :: !Unblocked(job, workers, p.pending.Keys, f)
    ensures target in p.pending
  {
    forall f | f in Free(job, workers) ensures f in TakenRows(p) {
      BlockedTookFree(job, p, workers, f);
    }
    SubsetSize(Free(job, workers), TakenRows(p));
    SubmittedCount(job, p, Window(workers, |job.rows|));
    assert p.selected[target] == None;
  }

  lemma WaitsAtTarget<R>(job: Job<R>, choose: (nat, set<nat>) -> seq<nat>, n: nat, p: Pool<R>, most: nat, target: nat, e: Error)
    requires Running(job, p, most) && Completes(choose) && target in p.pending && FailsAt(job, target, e)
    requires choose(n, p.pending.Keys) != [] && choose(n, p.pending.Keys)[0] == target
    ensures Waits(job, choose, n, p, most).Failed? && Waits(job, choose, n, p, most).error == e
  {
    var done := choose(n, p.pending.Keys);
    assert Batch(done, p.pending.Keys);
    TakeDoneStep(job, done, p, most);
  }

  /** What the steering pool does next: a succeeding row alone, or, when it is blocked, the target first. */
  lemma SteerStep<R>(job: Job<R>, target: nat, e: Error, p: Pool<R>, workers: int) returns (f: nat)
    requires workers > 0 && Running(job, p, Window(workers, |job.rows|)) && FifoReportable(job, target, e, workers)
    ensures f in p.pending && var done := FifoSteer(job, target, workers, p.pending.Keys);
            (done == [f] && PrepareOne(job, job.rows[f]).Ok?) || (f == target && done != [] && done[0] == target)
  {
    if exists f :: Unblocked(job, workers, p.pending.Keys, f) {
      f := FifoSteer(job, target, workers, p.pending.Keys)[0];
    } else {
      BlockedHasTarget(job, p, workers, target, e);
      f := target;
    }
  }

  lemma {:induction false} FifoSteered<R>(job: Job<R>, target: nat, e: Error, n: nat, p: Pool<R>, workers: int)
    requires workers > 0 && Running(job, p, Window(workers, |job.rows|)) && FifoReportable(job, target, e, workers)
    ensures var o := Waits(job, FifoSteering(job, target, workers), n, p, Window(workers, |job.rows|)); o.Failed? && o.error == e
    decreases Left(p, |job.rows|)
  {
    var choose, most := FifoSteering(job, target, workers), Window(workers, |job.rows|);
    var f := SteerStep(job, target, e, p, workers);
    if PrepareOne(job, job.rows[f]).Ok? {
      WaitForOne(job, choose, n, p, most, f);
      FifoSteered(job, target, e, n + 1, TakeOne(job, f, p).pool, workers);
    } else {
      WaitsAtTarget(job, choose, n, p, most, target, e);
    }
  }

  lemma FifoReport<R>(job: Job<R>, workers: int, target: nat, e: Error)
    requires workers > 0 && FifoReportable(job, target, e, workers)
    ensures PoolResult(job, workers, FifoSteering(job, target, workers)) == Err(e)
  {
    FifoSteered(job, target, e, 0, Filled(job, Window(workers, |job.rows|)), workers);
  }

  // ----- against the reference

  /** The rows a first-in first-out pool can report fail alike. */
  ghost predicate FifoAlike<R>(job: Job<R>, workers: int)
    requires workers > 0
  {
    forall i, j, e, f :: FifoReportable(job, i, e, workers) && FifoReportable(job, j, f, workers) ==> e == f
  }

  lemma FirstReportable<R>(job: Job<R>, workers: int, i: nat, e: Error)
    requires workers > 0 && FailsAt(job, i, e) && forall j :: 0 <= j < i ==> PrepareOne(job, job.rows[j]).Ok?
    ensures FifoReportable(job, i, e, workers)
  {
    var before := Below(i);
    forall j | j in before ensures j in Free(job, workers) {
      assert Failing(job, j) == {};
    }
    SubsetSize(before, Free(job, workers));
  }

  lemma SequentialFifoReportable<R>(job: Job<R>, s: Result<seq<Item<R>>, Error>, workers: int)
    requires Sequential(job, s) && s.Err? && job.rows != [] && workers > 0
    ensures exists i :: FifoReportable(job, i, s.error, workers)
  {
    if !ValidBudget(job) {
      FirstReportable(job, workers, 0, s.error);
    } else {
      var i :| FailsAt(job, i, s.error) && forall j :: 0 <= j < i ==> PrepareOne(job, job.rows[j]).Ok?;
      FirstReportable(job, workers, i, s.error);
    }
  }

  ghost predicate FifoAgrees<R>(job: Job<R>, workers: int, s: Result<seq<Item<R>>, Error>, choose: (nat, set<nat>) -> seq<nat>) {
    Completes(choose) && Fifo(choose, workers) ==> PoolResult(job, workers, choose) == s
  }

  /**
   The parallel form agrees with the reference on every first-in first-out pool if and only if the failing rows that
   are submitted before such a pool is blocked fail alike.
   */
  lemma FifoMatchesSequential<R>(job: Job<R>, workers: int, s: Result<seq<Item<R>>, Error>)
    requires workers > 0 && job.rows != [] && Sequential(job, s)
    ensures (forall choose :: FifoAgrees(job, workers, s, choose)) <==> FifoAlike(job, workers)
  {
    if forall choose :: FifoAgrees(job, workers, s, choose) {
      forall i, e | FifoReportable(job, i, e, workers) ensures s == Err(e) {
        FifoReport(job, workers, i, e);
        assert FifoAgrees(job, workers, s, FifoSteering(job, i, workers));
      }
    }
    if FifoAlike(job, workers) {
      forall choose ensures FifoAgrees(job, workers, s, choose) {
        if Completes(choose) && Fifo(choose, workers) {
          AlikeAgrees(job, workers, s, choose);
        }
      }
    }
  }

  lemma AlikeAgrees<R>(job: Job<R>, workers: int, s: Result<seq<Item<R>>, Error>, choose: (nat, set<nat>) -> seq<nat>)
    requires workers > 0 && job.rows != [] && Sequential(job, s) && FifoAlike(job, workers)
    requires Completes(choose) && Fifo(choose, workers)
    ensures PoolResult(job, workers, choose) == s
  {
    SuccessAgrees(job, workers, choose, s);
    FifoReports(job, workers, choose);
    if s.Err? {
      SequentialFifoReportable(job, s, workers);
    }
  }

  // ----- inputs

  /** One worker and two rows that fail differently: when both are done at once, the second can be reported. */
  lemma SecondFailureInOrder()
    ensures Sequential(TwoFailures(), Err(RowError(1)))
    ensures PoolResult(TwoFailures(), 1, FifoSteering(TwoFailures(), 1, 1)) == Err(RowError(2))
  {
    var job := TwoFailures();
    assert FailsAt(job, 0, RowError(1)) && FailsAt(job, 1, RowError(2));
    FifoReport(job, 1, 1, RowError(2));
  }

  /** Two rows that fail differently with one that succeeds between them. */
  function FailuresApart(): Job<int> {
    var tools := Tools(
      (row: int) => "", (row: int) => if row == 0 then Ok("") else Err(RowError(row)), s => [], ids => "", s => Ok(("", [0])), s => "");
    Job(tools, [1, 0, 2], 1, 1)
  }

  /** One worker cannot get past the first failing row to the second: in order, the reference is always met. */
  lemma FailuresApartAgree()
    ensures FifoAlike(FailuresApart(), 1) && !AlikeAtFirst(FailuresApart(), Window(1, 3))
  {
    var job := FailuresApart();
    assert FailsAt(job, 0, RowError(1)) && FailsAt(job, 2, RowError(2)) && PrepareOne(job, job.rows[1]).Ok?;
    assert Failing(job, 0) == {} && Failing(job, 1) == {0} && Failing(job, 2) == {0};
    assert Reportable(job, 0, RowError(1), 2) && Reportable(job, 2, RowError(2), 2);
    assert Free(job, 1) == {};
  }
}
