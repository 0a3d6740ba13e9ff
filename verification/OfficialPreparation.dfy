/**
 LongBench v2 preparation: the sequential reference of contracts.py and the bounded parallel
 scheduler of preparation.py. Tokenizer, template and digest are parameters; a worker pool is a
 choice, made afresh at every wait, of which pending futures are done and in which order.
 */
module OfficialPreparation {
  import opened Wrappers
  import opened Sequences

  /** An over-budget prompt is reported with its sample's id and its length. */
  datatype Error = BadWorkers | BadBudget | RowError(code: int) | OverBudget(sample: string, tokens: nat)

  datatype Tools<!R> = Tools(
    id: R -> string, render: R -> Result<string, Error>, encode: string -> seq<int>, decode: seq<int> -> string,
    chat: string -> Result<(string, seq<int>), Error>, digest: string -> string)

  /** The work: the rows and what to do with each. */
  datatype Job<!R> = Job(tools: Tools<R>, rows: seq<R>, limit: int, budget: int)

  datatype Body = Body(prompt: string, tokenIds: seq<int>, originalTokens: nat, digest: string, truncated: bool)

  datatype Item<R> = Item(index: nat, sourceIndex: nat, sample: Option<R>, body: Body)

  /** `ids[:limit // 2] + ids[-limit // 2:]`, where Python's floor division rounds the second half up. */
  function KeepEnds(ids: seq<int>, limit: int): seq<int>
    requires 0 < limit < |ids|
  {
    ids[..limit / 2] + ids[|ids| - (limit - limit / 2)..]
  }

  /** The truncated prompt keeps exactly `limit` tokens: the two ends, with one contiguous middle cut out. */
  lemma MiddleCut(ids: seq<int>, limit: int)
    requires 0 < limit < |ids|
    ensures |KeepEnds(ids, limit)| == limit
    ensures exists cut :: ids == KeepEnds(ids, limit)[..limit / 2] + cut + KeepEnds(ids, limit)[limit / 2..]
                          && |cut| == |ids| - limit
  {
    var cut := ids[limit / 2..|ids| - (limit - limit / 2)];
    assert ids == KeepEnds(ids, limit)[..limit / 2] + cut + KeepEnds(ids, limit)[limit / 2..];
  }

  /** One pass of the reference loop over a row. */
  function PrepareBody<R>(tools: Tools<R>, row: R, limit: int, budget: int): Result<Body, Error>
    requires limit > 0
  {
    match tools.render(row)
    case Err(e) => Err(e)
    case Ok(original) =>
      var ids := tools.encode(original);
      var truncated := |ids| > limit;
      var content := if truncated then tools.decode(KeepEnds(ids, limit)) else original;
      match tools.chat(content)
      case Err(e) => Err(e)
      case Ok((prompt, tokens)) =>
        if !(0 < |tokens| <= budget) then Err(OverBudget(tools.id(row), |tokens|))
        else Ok(Body(prompt, tokens, |ids|, tools.digest(original), truncated))
  }

  // ----- what a row's prompt is made of

  /** `kept` is exactly `limit` of the ids: the two ends, the front one of half the limit rounded down, around one cut. */
  ghost predicate KeepsBothEnds(ids: seq<int>, limit: int, kept: seq<int>) {
    exists front, cut, back :: ids == front + cut + back && CutOut(front, cut, back, limit, kept)
  }

  ghost predicate CutOut(front: seq<int>, cut: seq<int>, back: seq<int>, limit: int, kept: seq<int>) {
    kept == front + back && |kept| == limit && |front| == limit / 2 && cut != []
  }

  /** What the chat template is given: the rendered prompt if it is within the limit, else what its two ends decode to. */
  ghost predicate Content<R>(tools: Tools<R>, original: string, limit: int, content: string) {
    var ids := tools.encode(original);
    if |ids| <= limit then content == original
    else exists kept :: KeepsBothEnds(ids, limit, kept) && content == tools.decode(kept)
  }

  /** The row prepared: the chat prompt of that content within the budget, and the length and digest of the uncut prompt. */
  ghost predicate PreparedAs<R>(tools: Tools<R>, row: R, limit: int, budget: int, body: Body) {
    tools.render(row).Ok?
    && var original := tools.render(row).value;
       && (exists content :: Content(tools, original, limit, content) && tools.chat(content) == Ok((body.prompt, body.tokenIds)))
       && 1 <= |body.tokenIds| <= budget
       && body.originalTokens == |tools.encode(original)| && body.digest == tools.digest(original)
       && (body.truncated <==> |tools.encode(original)| > limit)
  }

  /** The row refused: the template or the chat template raised, or the chat prompt is empty or over budget. */
  ghost predicate RefusedAs<R>(tools: Tools<R>, row: R, limit: int, budget: int, e: Error) {
    match tools.render(row)
    case Err(f) => e == f
    case Ok(original) => exists content :: Content(tools, original, limit, content) && RefusedContent(tools, row, budget, content, e)
  }

  ghost predicate RefusedContent<R>(tools: Tools<R>, row: R, budget: int, content: string, e: Error) {
    match tools.chat(content)
    case Err(f) => e == f
    case Ok((_, ids)) => !(1 <= |ids| <= budget) && e == OverBudget(tools.id(row), |ids|)
  }

  /** The two ends are determined, and they are what is kept. */
  lemma EndsAreKept(ids: seq<int>, limit: int, kept: seq<int>)
    requires 0 < limit < |ids|
    ensures KeepsBothEnds(ids, limit, kept) <==> kept == KeepEnds(ids, limit)
  {
    var front, cut, back := ids[..limit / 2], ids[limit / 2..|ids| - (limit - limit / 2)], ids[|ids| - (limit - limit / 2)..];
    assert ids == front + cut + back;
    assert KeepEnds(ids, limit) == front + back && |front + back| == limit;
    assert CutOut(front, cut, back, limit, KeepEnds(ids, limit));
    if f, c, b :| ids == f + c + b && CutOut(f, c, b, limit, kept) {
      assert f == front && b == back;
    }
  }

  /** The content is determined. */
  lemma ContentExactly<R>(tools: Tools<R>, original: string, limit: int, content: string)
    requires limit > 0
    ensures Content(tools, original, limit, content) <==>
            content == if |tools.encode(original)| > limit then tools.decode(KeepEnds(tools.encode(original), limit)) else original
  {
    var ids := tools.encode(original);
    if |ids| > limit {
      EndsAreKept(ids, limit, KeepEnds(ids, limit));
      if kept :| KeepsBothEnds(ids, limit, kept) && content == tools.decode(kept) {
        EndsAreKept(ids, limit, kept);
      }
    }
  }

  /** The reference pass prepares a row as stated, or refuses it as stated, and nothing else is either. */
  lemma PreparedExactly<R>(tools: Tools<R>, row: R, limit: int, budget: int, body: Body)
    requires limit > 0
    ensures PrepareBody(tools, row, limit, budget) == Ok(body) <==> PreparedAs(tools, row, limit, budget, body)
  {
    if tools.render(row).Ok? {
      var original := tools.render(row).value;
      forall content
        ensures Content(tools, original, limit, content) <==>
                content == if |tools.encode(original)| > limit then tools.decode(KeepEnds(tools.encode(original), limit)) else original
      {
        ContentExactly(tools, original, limit, content);
      }
    }
  }

  lemma RefusedExactly<R>(tools: Tools<R>, row: R, limit: int, budget: int, e: Error)
    requires limit > 0
    ensures PrepareBody(tools, row, limit, budget) == Err(e) <==> RefusedAs(tools, row, limit, budget, e)
  {
    if tools.render(row).Ok? {
      var original := tools.render(row).value;
      var ids := tools.encode(original);
      var content := if |ids| > limit then tools.decode(KeepEnds(ids, limit)) else original;
      assert Content(tools, original, limit, content) by {
        ContentExactly(tools, original, limit, content);
      }
      if other :| Content(tools, original, limit, other) && RefusedContent(tools, row, budget, other, e) {
        ContentExactly(tools, original, limit, other);
      }
      assert PrepareBody(tools, row, limit, budget) == Err(e) <==> RefusedContent(tools, row, budget, content, e);
    }
  }

  predicate ValidBudget<R>(job: Job<R>) { job.limit > 0 && job.budget > 0 }

  /** The reference on one row alone. */
  function PrepareOne<R>(job: Job<R>, row: R): Result<Body, Error> {
    if ValidBudget(job) then PrepareBody(job.tools, row, job.limit, job.budget) else Err(BadBudget)
  }

  function ItemAt<R>(job: Job<R>, i: nat): Item<R>
    requires i < |job.rows| && PrepareOne(job, job.rows[i]).Ok?
  {
    Item(i, i, Some(job.rows[i]), PrepareOne(job, job.rows[i]).value)
  }

  /** Every row was prepared, in source order, and knows its place. */
  ghost predicate AllPrepared<R>(job: Job<R>, items: seq<Item<R>>) {
    && |items| == |job.rows|
    && forall i :: 0 <= i < |job.rows| ==> PrepareOne(job, job.rows[i]).Ok? && items[i] == ItemAt(job, i)
  }

  /** Row `i` fails with error `e`. */
  ghost predicate FailsAt<R>(job: Job<R>, i: int, e: Error) {
    0 <= i < |job.rows| && PrepareOne(job, job.rows[i]) == Err(e)
  }

  /** What the sequential reference returns: all items, or the first failing row's error. */
  ghost predicate Sequential<R>(job: Job<R>, r: Result<seq<Item<R>>, Error>) {
    if !ValidBudget(job) then r == Err(BadBudget)
    else
      match r
      case Ok(items) => AllPrepared(job, items)
      case Err(e) => exists i :: FailsAt(job, i, e) && forall j :: 0 <= j < i ==> PrepareOne(job, job.rows[j]).Ok?
  }

  /** Item `i` is row `i`, prepared, and knows its place. */
  ghost predicate ItemOf<R>(job: Job<R>, i: nat, item: Item<R>)
    requires i < |job.rows|
  {
    && item.index == item.sourceIndex == i && item.sample == Some(job.rows[i])
    && PreparedAs(job.tools, job.rows[i], job.limit, job.budget, item.body)
  }

  ghost predicate CanPrepare<R>(job: Job<R>, i: nat)
    requires i < |job.rows|
  {
    exists body :: PreparedAs(job.tools, job.rows[i], job.limit, job.budget, body)
  }

  ghost predicate Refused<R>(job: Job<R>, i: int, e: Error) {
    0 <= i < |job.rows| && RefusedAs(job.tools, job.rows[i], job.limit, job.budget, e)
  }

  /** The reference, row by row: every row prepared in source order, or the refusal of the first row that is refused. */
  ghost predicate Reference<R>(job: Job<R>, r: Result<seq<Item<R>>, Error>) {
    if !(job.limit > 0 && job.budget > 0) then r == Err(BadBudget)
    else if r.Ok? then |r.value| == |job.rows| && forall i :: 0 <= i < |job.rows| ==> ItemOf(job, i, r.value[i])
    else exists i :: Refused(job, i, r.error) && forall j :: 0 <= j < i ==> CanPrepare(job, j)
  }

  lemma RowPrepared<R>(job: Job<R>, i: nat)
    requires ValidBudget(job) && i < |job.rows|
    ensures PrepareOne(job, job.rows[i]).Ok? ==>
              PreparedAs(job.tools, job.rows[i], job.limit, job.budget, PrepareOne(job, job.rows[i]).value)
    ensures PrepareOne(job, job.rows[i]).Err? ==>
              RefusedAs(job.tools, job.rows[i], job.limit, job.budget, PrepareOne(job, job.rows[i]).error)
  {
    if PrepareOne(job, job.rows[i]).Ok? {
      PreparedExactly(job.tools, job.rows[i], job.limit, job.budget, PrepareOne(job, job.rows[i]).value);
    } else {
      RefusedExactly(job.tools, job.rows[i], job.limit, job.budget, PrepareOne(job, job.rows[i]).error);
    }
  }

  lemma SequentialReference<R>(job: Job<R>, r: Result<seq<Item<R>>, Error>)
    requires Sequential(job, r)
    ensures Reference(job, r)
  {
    if ValidBudget(job) {
      if r.Ok? {
        forall i | 0 <= i < |job.rows| ensures ItemOf(job, i, r.value[i]) {
          RowPrepared(job, i);
        }
      } else {
        var i :| FailsAt(job, i, r.error) && forall j :: 0 <= j < i ==> PrepareOne(job, job.rows[j]).Ok?;
        RowPrepared(job, i);
        assert Refused(job, i, r.error);
        forall j | 0 <= j < i ensures CanPrepare(job, j) {
          RowPrepared(job, j);
        }
      }
    }
  }

  /** prepare_official_samples */
  method PrepareSequential<R>(job: Job<R>) returns (r: Result<seq<Item<R>>, Error>)
    ensures Sequential(job, r) && Reference(job, r)
  {
    if !(job.limit > 0 && job.budget > 0) {
      r := Err(BadBudget);
      return;
    }
    var selected: seq<Item<R>> := [];
    var index := 0;
    while index < |job.rows|
      invariant 0 <= index == |selected| <= |job.rows|
      invariant forall i :: 0 <= i < index ==> PrepareOne(job, job.rows[i]).Ok? && selected[i] == ItemAt(job, i)
    {
      var body := PrepareBody(job.tools, job.rows[index], job.limit, job.budget);
      if body.Err? {
        assert FailsAt(job, index, body.error);
        r := Err(body.error);
        SequentialReference(job, r);
        return;
      }
      selected := selected + [Item(index, index, Some(job.rows[index]), body.value)];
      index := index + 1;
    }
    r := Ok(selected);
    SequentialReference(job, r);
  }

  /** _prepare_row: the reference on a single row, without the source text. */
  method PrepareRow<R>(job: Job<R>, row: R) returns (r: Result<Item<R>, Error>)
    ensures match PrepareOne(job, row)
            case Ok(body) => r == Ok(Item(0, 0, None, body))
            case Err(e) => r == Err(e)
  {
    var one := PrepareSequential(job.(rows := [row]));
    match one
    case Err(e) => r := Err(e);
    case Ok(items) => r := Ok(items[0].(sample := None));
  }

  // ----- the pool

  /** The log of a run: a row handed to the pool, or its result taken. */
  datatype Event = Submitted(row: nat) | Taken(row: nat)

  /** The rows handed over and not taken. */
  ghost function InFlight(log: seq<Event>): set<nat> {
    if log == [] then {}
    else
      var before, e := InFlight(log[..|log| - 1]), log[|log| - 1];
      if e.Submitted? then before + {e.row} else before - {e.row}
  }

  /** The rows handed over, in order. */
  ghost function Submissions(log: seq<Event>): seq<nat> {
    if log == [] then []
    else
      var before, e := Submissions(log[..|log| - 1]), log[|log| - 1];
      if e.Submitted? then before + [e.row] else before
  }

  ghost predicate Bounded(log: seq<Event>, most: nat) {
    forall k :: 0 <= k <= |log| ==> |InFlight(log[..k])| <= most
  }

  lemma LogSnoc(log: seq<Event>, e: Event)
    ensures InFlight(log + [e]) == if e.Submitted? then InFlight(log) + {e.row} else InFlight(log) - {e.row}
    ensures Submissions(log + [e]) == if e.Submitted? then Submissions(log) + [e.row] else Submissions(log)
  {
    assert (log + [e])[..|log|] == log;
  }

  lemma BoundedSnoc(log: seq<Event>, e: Event, most: nat)
    requires Bounded(log, most) && |InFlight(log + [e])| <= most
    ensures Bounded(log + [e], most)
  {
    forall k | 0 <= k <= |log| + 1 ensures |InFlight((log + [e])[..k])| <= most {
      if k <= |log| {
        assert (log + [e])[..k] == log[..k];
      } else {
        assert (log + [e])[..k] == log + [e];
      }
    }
  }

  function Upto(n: nat): (r: seq<nat>)
    ensures |r| == n && forall i :: 0 <= i < n ==> r[i] == i
  {
    seq(n, i => i)
  }

  /** A pool's behaviour: at wait number `n` over these pending rows, some of them are done, in this order. */
  ghost predicate Completes(choose: (nat, set<nat>) -> seq<nat>) {
    forall n, pending :: pending != {} ==> Batch(choose(n, pending), pending)
  }

  ghost predicate Batch(done: seq<nat>, pending: set<nat>) {
    && done != []
    && (forall i :: 0 <= i < |done| ==> done[i] in pending)
    && (forall i, j :: 0 <= i < j < |done| ==> done[i] != done[j])
  }

  /**
   The scheduler's variables: the next row to submit, the pending futures with their rows, and the results.
   Futures are numbered in submission order.
   */
  datatype Pool<R> = Pool(next: nat, pending: map<nat, nat>, selected: seq<Option<Item<R>>>, log: seq<Event>)

  /** How many rows are submitted at first: `min(2 * min(workers, len(rows)), len(rows))`. */
  function Window(workers: int, n: nat): nat
    requires workers > 0
  {
    var pool := if workers < n then workers else n;
    if 2 * pool < n then 2 * pool else n
  }

  /** Row `f` is future `f`, and it is pending or stored. */
  ghost predicate Shape<R>(n: nat, p: Pool<R>) {
    && p.next <= n == |p.selected|
    && (forall f :: f in p.pending ==> f < p.next && p.pending[f] == f)
    && (forall i :: 0 <= i < n ==> (p.selected[i].Some? <==> i < p.next && i !in p.pending))
  }

  /** The log tells what is pending and what was submitted; never were more than `most` rows in flight. */
  ghost predicate Logged<R>(p: Pool<R>, most: nat) {
    InFlight(p.log) == p.pending.Keys && Submissions(p.log) == Upto(p.next) && Bounded(p.log, most)
  }

  /** As long as rows are left, `most` of them are pending. */
  ghost predicate Full<R>(n: nat, p: Pool<R>, most: nat) {
    |p.pending| <= most && (p.next < n ==> |p.pending| == most)
  }

  /** Stored results are the rows' own. */
  ghost predicate Stored<R>(job: Job<R>, p: Pool<R>)
    requires |p.selected| == |job.rows|
  {
    forall i :: 0 <= i < |job.rows| && p.selected[i].Some? ==>
      PrepareOne(job, job.rows[i]).Ok? && p.selected[i].value == ItemAt(job, i)
  }

  ghost predicate Running<R>(job: Job<R>, p: Pool<R>, most: nat) {
    Shape(|job.rows|, p) && Logged(p, most) && Full(|job.rows|, p, most) && Stored(job, p)
  }

  /** `pending[pool.submit(...)] = index` for the next row. */
  function SubmitNext<R>(p: Pool<R>): Pool<R> {
    Pool(p.next + 1, p.pending[p.next := p.next], p.selected, p.log + [Submitted(p.next)])
  }

  /** pending.pop. */
  function Pop<R>(p: Pool<R>, future: nat): Pool<R>
    requires future in p.pending
  {
    p.(pending := p.pending - {future}, log := p.log + [Taken(p.pending[future])])
  }

  /** pending.pop, the result stored, and the next row submitted if there is one. */
  function Replace<R>(p: Pool<R>, future: nat, item: Item<R>): Pool<R>
    requires future in p.pending && p.pending[future] < |p.selected|
  {
    var q := Pop(p, future).(selected := p.selected[p.pending[future] := Some(item)]);
    if p.next < |p.selected| then SubmitNext(q) else q
  }

  lemma UptoNext(n: nat)
    ensures Upto(n + 1) == Upto(n) + [n]
  {
  }

  lemma SubmitKeys<R>(p: Pool<R>)
    requires p.next !in p.pending
    ensures SubmitNext(p).pending.Keys == p.pending.Keys + {p.next} && |SubmitNext(p).pending| == |p.pending| + 1
  {
    var q := SubmitNext(p);
    assert q.pending.Keys == p.pending.Keys + {p.next};
    assert |q.pending.Keys| == |p.pending.Keys| + 1;
  }

  lemma SubmitLogged<R>(p: Pool<R>, most: nat)
    requires Logged(p, most) && |p.pending| < most && p.next !in p.pending
    ensures Logged(SubmitNext(p), most) && |SubmitNext(p).pending| == |p.pending| + 1
  {
    SubmitKeys(p);
    UptoNext(p.next);
    LogSnoc(p.log, Submitted(p.next));
    assert |InFlight(p.log + [Submitted(p.next)])| <= most;
    BoundedSnoc(p.log, Submitted(p.next), most);
  }

  lemma SubmitShape<R>(n: nat, p: Pool<R>)
    requires Shape(n, p) && p.next < n
    ensures Shape(n, SubmitNext(p)) && p.next !in p.pending
  {
  }

  lemma PopLogged<R>(p: Pool<R>, future: nat, most: nat)
    requires Logged(p, most) && future in p.pending && p.pending[future] == future && |p.pending| <= most
    ensures Logged(Pop(p, future), most) && |Pop(p, future).pending| == |p.pending| - 1
  {
    var q := Pop(p, future);
    assert q.pending.Keys == p.pending.Keys - {future};
    assert |q.pending.Keys| == |p.pending.Keys| - 1;
    LogSnoc(p.log, Taken(future));
    BoundedSnoc(p.log, Taken(future), most);
  }

  lemma StoreShape<R>(n: nat, p: Pool<R>, future: nat, item: Item<R>)
    requires Shape(n, p) && future in p.pending
    ensures Shape(n, Pop(p, future).(selected := p.selected[future := Some(item)]))
  {
  }

  lemma ReplaceConsistent<R>(p: Pool<R>, future: nat, item: Item<R>, most: nat)
    requires Shape(|p.selected|, p) && Logged(p, most) && Full(|p.selected|, p, most) && future in p.pending
    ensures var q := Replace(p, future, item);
            && Shape(|p.selected|, q) && Logged(q, most) && Full(|p.selected|, q, most)
            && Left(q, |p.selected|) < Left(p, |p.selected|) && q.selected == p.selected[future := Some(item)]
            && forall f :: f in p.pending && f != future ==> f in q.pending
  {
    var q := Pop(p, future).(selected := p.selected[future := Some(item)]);
    PopLogged(p, future, most);
    StoreShape(|p.selected|, p, future, item);
    if p.next < |p.selected| {
      SubmitShape(|p.selected|, q);
      SubmitLogged(q, most);
    }
  }

  /** A taken result keeps the pool running, and makes what is left smaller. */
  lemma ReplaceRunning<R>(job: Job<R>, p: Pool<R>, future: nat, most: nat)
    requires Running(job, p, most) && future in p.pending && PrepareOne(job, job.rows[future]).Ok?
    ensures var q := Replace(p, future, ItemAt(job, future));
            && Running(job, q, most) && Left(q, |job.rows|) < Left(p, |job.rows|)
            && q.selected == p.selected[future := Some(ItemAt(job, future))]
            && forall f :: f in p.pending && f != future ==> f in q.pending
  {
    ReplaceConsistent(p, future, ItemAt(job, future), most);
  }

  /** Pending work plus twice the rows not yet submitted. */
  ghost function Left<R>(p: Pool<R>, n: nat): int { 2 * (n - p.next) + |p.pending| }

  // ----- the run as a function of the pool's behaviour

  /** The pool so far, or the error raised by a future's result and the log up to there. */
  datatype Outcome<R> = Going(pool: Pool<R>) | Failed(error: Error, log: seq<Event>)

  ghost predicate Among(done: seq<nat>, pending: set<nat>) {
    && (forall i :: 0 <= i < |done| ==> done[i] in pending)
    && (forall i, j :: 0 <= i < j < |done| ==> done[i] != done[j])
  }

  /** pending.pop, future.result() and what follows it. */
  function TakeOne<R>(job: Job<R>, future: nat, p: Pool<R>): Outcome<R>
    requires |p.selected| == |job.rows| && future in p.pending && p.pending[future] < |job.rows|
  {
    match PrepareOne(job, job.rows[p.pending[future]])
    case Err(e) => Failed(e, Pop(p, future).log)
    case Ok(_) => Going(Replace(p, future, ItemAt(job, p.pending[future])))
  }

  /** The loop over the done futures of one wait. */
  ghost function TakeDone<R>(job: Job<R>, done: seq<nat>, p: Pool<R>, most: nat): (o: Outcome<R>)
    requires Running(job, p, most) && Among(done, p.pending.Keys)
    ensures o.Going? ==> Running(job, o.pool, most) && Left(o.pool, |job.rows|) + |done| <= Left(p, |job.rows|)
    decreases |done|
  {
    if done == [] then Going(p)
    else
      match TakeOne(job, done[0], p)
      case Failed(e, log) => Failed(e, log)
      case Going(q) =>
        ReplaceRunning(job, p, done[0], most);
        TakeDone(job, done[1..], q, most)
  }

  /** The wait loop from wait number `n` on. */
  ghost function Waits<R>(job: Job<R>, choose: (nat, set<nat>) -> seq<nat>, n: nat, p: Pool<R>, most: nat): (o: Outcome<R>)
    requires Running(job, p, most) && Completes(choose)
    ensures o.Going? ==> Running(job, o.pool, most) && o.pool.pending == map[]
    decreases Left(p, |job.rows|)
  {
    if p.pending == map[] then Going(p)
    else
      assert Batch(choose(n, p.pending.Keys), p.pending.Keys);
      match TakeDone(job, choose(n, p.pending.Keys), p, most)
      case Failed(e, log) => Failed(e, log)
      case Going(q) => Waits(job, choose, n + 1, q, most)
  }

  /** The log begins with the submissions of the first `n` rows. */
  ghost predicate Submits(log: seq<Event>, n: nat) {
    n <= |log| && forall i :: 0 <= i < n ==> log[i] == Submitted(i)
  }

  lemma SubmitsNext<R>(p: Pool<R>)
    requires p.next == |p.log| && Submits(p.log, p.next)
    ensures Submits(SubmitNext(p).log, p.next + 1) && |SubmitNext(p).log| == p.next + 1
  {
  }

  /** Nothing submitted, no results. */
  function NewPool<R>(n: nat): Pool<R> { Pool(0, map[], seq(n, _ => None), []) }

  /** The first submissions. */
  ghost function Filled<R>(job: Job<R>, n: nat): (p: Pool<R>)
    requires n <= |job.rows|
    ensures Shape(|job.rows|, p) && Logged(p, n) && p.next == |p.pending| == n
    ensures Submits(p.log, n) && |p.log| == n
    ensures forall i :: 0 <= i < |job.rows| ==> p.selected[i] == None
  {
    if n == 0 then
      NewPool(|job.rows|)
    else
      var p := Filled(job, n - 1);
      SubmitShape(|job.rows|, p);
      Loosen(p, n - 1, n);
      SubmitLogged(p, n);
      SubmitsNext(p);
      SubmitNext(p)
  }

  lemma Loosen<R>(p: Pool<R>, most: nat, more: nat)
    requires Logged(p, most) && most <= more
    ensures Logged(p, more)
  {
  }

  ghost function PoolRun<R>(job: Job<R>, workers: int, choose: (nat, set<nat>) -> seq<nat>): (o: Outcome<R>)
    requires workers > 0 && job.rows != [] && Completes(choose)
    ensures o.Going? ==> Running(job, o.pool, Window(workers, |job.rows|)) && o.pool.pending == map[]
  {
    Waits(job, choose, 0, Filled(job, Window(workers, |job.rows|)), Window(workers, |job.rows|))
  }

  lemma RunWaits<R>(job: Job<R>, workers: int, choose: (nat, set<nat>) -> seq<nat>, first: nat)
    requires workers > 0 && job.rows != [] && Completes(choose) && first == Window(workers, |job.rows|)
    ensures Running(job, Filled(job, first), first)
    ensures PoolRun(job, workers, choose) == Waits(job, choose, 0, Filled(job, first), first)
  {
  }

  /** `selected` once nothing is pending. */
  ghost function Selected<R>(job: Job<R>, p: Pool<R>, most: nat): (items: seq<Item<R>>)
    requires Running(job, p, most) && p.pending == map[] && most > 0
    ensures AllPrepared(job, items)
  {
    assert |p.pending| == 0;
    seq(|job.rows|, i requires 0 <= i < |job.rows| => p.selected[i].value)
  }

  /** What the parallel preparer returns, given what the pool does. */
  ghost function PoolResult<R>(job: Job<R>, workers: int, choose: (nat, set<nat>) -> seq<nat>): Result<seq<Item<R>>, Error>
    requires Completes(choose)
  {
    if workers <= 0 then Err(BadWorkers)
    else if job.rows == [] then Ok([])
    else
      match PoolRun(job, workers, choose)
      case Failed(e, _) => Err(e)
      case Going(p) => Ok(Selected(job, p, Window(workers, |job.rows|)))
  }

  // ----- the scheduler

  /** pending.pop, future.result(), the result completed and stored, the next submission. */
  method TakeResult<R>(job: Job<R>, future: nat, p: Pool<R>) returns (o: Outcome<R>)
    requires |p.selected| == |job.rows| && future in p.pending && p.pending[future] < |job.rows|
    ensures o == TakeOne(job, future, p)
  {
    var index := p.pending[future];
    var pending, log := p.pending - {future}, p.log + [Taken(index)];
    var result := PrepareRow(job, job.rows[index]);
    if result.Err? {
      return Failed(result.error, log);
    }
    var item := result.value.(index := index, sourceIndex := index, sample := Some(job.rows[index]));
    var next, selected := p.next, p.selected[index := Some(item)];
    if next < |job.rows| {
      pending, log, next := pending[next := next], log + [Submitted(next)], next + 1;
    }
    o := Going(Pool(next, pending, selected, log));
  }

  lemma TakeDoneStep<R>(job: Job<R>, done: seq<nat>, p: Pool<R>, most: nat)
    requires Running(job, p, most) && Among(done, p.pending.Keys) && done != []
    ensures var o := TakeOne(job, done[0], p);
            if o.Failed? then TakeDone(job, done, p, most) == o
            else Running(job, o.pool, most) && Among(done[1..], o.pool.pending.Keys)
                 && TakeDone(job, done, p, most) == TakeDone(job, done[1..], o.pool, most)
  {
    if PrepareOne(job, job.rows[done[0]]).Ok? {
      ReplaceRunning(job, p, done[0], most);
      AmongRest(done, p.pending.Keys, TakeOne(job, done[0], p).pool.pending.Keys);
    }
  }

  lemma AmongRest(done: seq<nat>, pending: set<nat>, left: set<nat>)
    requires Among(done, pending) && done != [] && forall f :: f in pending && f != done[0] ==> f in left
    ensures Among(done[1..], left)
  {
  }

  /** The loop over the done futures of one wait. */
  method TakeBatch<R>(job: Job<R>, done: seq<nat>, p: Pool<R>, ghost most: nat) returns (o: Outcome<R>)
    requires Running(job, p, most) && Among(done, p.pending.Keys)
    ensures o == TakeDone(job, done, p, most)
  {
    o := Going(p);
    var k := 0;
    while k < |done|
      invariant 0 <= k <= |done| && o.Going?
      invariant Running(job, o.pool, most) && Among(done[k..], o.pool.pending.Keys)
      invariant TakeDone(job, done[k..], o.pool, most) == TakeDone(job, done, p, most)
    {
      assert done[k..][0] == done[k] && done[k..][1..] == done[k + 1..];
      TakeDoneStep(job, done[k..], o.pool, most);
      o := TakeResult(job, done[k], o.pool);
      if o.Failed? {
        return;
      }
      k := k + 1;
    }
  }

  lemma FilledNext<R>(job: Job<R>, n: nat)
    requires n < |job.rows|
    ensures Filled(job, n + 1) == SubmitNext(Filled(job, n))
  {
  }

  /** The first submissions. */
  method Fill<R>(job: Job<R>, first: nat) returns (p: Pool<R>)
    requires first <= |job.rows|
    ensures p == Filled(job, first)
  {
    p := NewPool(|job.rows|);
    while p.next < first
      invariant p.next <= first && p == Filled(job, p.next)
    {
      FilledNext(job, p.next);
      p := Pool(p.next + 1, p.pending[p.next := p.next], p.selected, p.log + [Submitted(p.next)]);
    }
  }

  /** The wait loop. */
  method Drain<R>(job: Job<R>, choose: (nat, set<nat>) -> seq<nat>, start: Pool<R>, ghost most: nat) returns (o: Outcome<R>)
    requires Completes(choose) && Running(job, start, most)
    ensures o == Waits(job, choose, 0, start, most)
  {
    var p, waits := start, 0;
    while p.pending.Keys != {}
      invariant Running(job, p, most)
      invariant Waits(job, choose, waits, p, most) == Waits(job, choose, 0, start, most)
      decreases Left(p, |job.rows|)
    {
      var done := choose(waits, p.pending.Keys);
      assert Batch(done, p.pending.Keys);
      o := TakeBatch(job, done, p, most);
      if o.Failed? {
        return;
      }
      p := o.pool;
      waits := waits + 1;
    }
    o := Going(p);
  }

  /** The first submissions and the wait loop. */
  method RunPool<R>(job: Job<R>, workers: int, choose: (nat, set<nat>) -> seq<nat>) returns (o: Outcome<R>)
    requires workers > 0 && job.rows != [] && Completes(choose)
    ensures o == PoolRun(job, workers, choose)
  {
    var pool := if workers < |job.rows| then workers else |job.rows|;
    var first := if 2 * pool < |job.rows| then 2 * pool else |job.rows|;
    var p := Fill(job, first);
    RunWaits(job, workers, choose, first);
    o := Drain(job, choose, p, first);
  }

  /** `selected` once nothing is pending. */
  method Collect<R>(job: Job<R>, p: Pool<R>, ghost most: nat) returns (items: seq<Item<R>>)
    requires Running(job, p, most) && p.pending == map[] && most > 0
    ensures items == Selected(job, p, most)
  {
    assert |p.pending| == 0;
    items := seq(|job.rows|, i requires 0 <= i < |job.rows| && p.selected[i].Some? => p.selected[i].value);
  }

  /**
   prepare_official_samples_parallel: it returns what the pool's behaviour makes of the rows, with the log of its
   submissions and results.
   */
  method PrepareParallel<R>(job: Job<R>, workers: int, choose: (nat, set<nat>) -> seq<nat>)
    returns (r: Result<seq<Item<R>>, Error>, log: seq<Event>)
    requires Completes(choose)
    ensures r == PoolResult(job, workers, choose)
    ensures log == if workers > 0 && job.rows != [] then RunLog(PoolRun(job, workers, choose)) else []
  {
    if workers <= 0 {
      return Err(BadWorkers), [];
    }
    if job.rows == [] {
      return Ok([]), [];
    }
    var o := RunPool(job, workers, choose);
    match o
    case Failed(e, l) => r, log := Err(e), l;
    case Going(q) =>
      var items := Collect(job, q, Window(workers, |job.rows|));
      r, log := Ok(items), q.log;
  }

  ghost function RunLog<R>(o: Outcome<R>): seq<Event> { if o.Failed? then o.log else o.pool.log }

  // ----- every run: what is in flight, what is reported

  /** The rows before row `i` that fail. */
  ghost function Failing<R>(job: Job<R>, i: nat): set<nat>
    requires i <= |job.rows|
  {
    set j: nat | j < i && PrepareOne(job, job.rows[j]).Err?
  }

  /** Row `i` fails with `e`, and is one of the first `most` failing rows. */
  ghost predicate Reportable<R>(job: Job<R>, i: nat, e: Error, most: nat) {
    FailsAt(job, i, e) && |Failing(job, i)| < most
  }

  ghost predicate Sound<R>(job: Job<R>, o: Outcome<R>, most: nat) {
    o.Failed? ==>
      && (exists i :: Reportable(job, i, o.error, most))
      && Bounded(o.log, most) && Submissions(o.log) == Upto(|Submissions(o.log)|)
      && |Submissions(o.log)| <= |job.rows|
  }

  /** When a result is taken, every earlier failing row is still pending. */
  lemma TakeOneSound<R>(job: Job<R>, future: nat, p: Pool<R>, most: nat)
    requires Running(job, p, most) && future in p.pending
    ensures Sound(job, TakeOne(job, future, p), most)
  {
    PopLogged(p, future, most);
    if PrepareOne(job, job.rows[future]).Err? {
      assert Failing(job, future) <= Pop(p, future).pending.Keys;
      SubsetSize(Failing(job, future), Pop(p, future).pending.Keys);
      assert Reportable(job, future, PrepareOne(job, job.rows[future]).error, most);
    }
  }

  lemma {:induction false} TakeDoneSound<R>(job: Job<R>, done: seq<nat>, p: Pool<R>, most: nat)
    requires Running(job, p, most) && Among(done, p.pending.Keys)
    ensures Sound(job, TakeDone(job, done, p, most), most)
    decreases |done|
  {
    if done != [] {
      TakeOneSound(job, done[0], p, most);
      if TakeOne(job, done[0], p).Going? {
        ReplaceRunning(job, p, done[0], most);
        TakeDoneSound(job, done[1..], TakeOne(job, done[0], p).pool, most);
      }
    }
  }

  lemma {:induction false} WaitsSound<R>(job: Job<R>, choose: (nat, set<nat>) -> seq<nat>, n: nat, p: Pool<R>, most: nat)
    requires Running(job, p, most) && Completes(choose)
    ensures Sound(job, Waits(job, choose, n, p, most), most)
    decreases Left(p, |job.rows|)
  {
    if p.pending != map[] {
      var done := choose(n, p.pending.Keys);
      assert Batch(done, p.pending.Keys);
      TakeDoneSound(job, done, p, most);
      var o := TakeDone(job, done, p, most);
      if o.Going? {
        WaitsSound(job, choose, n + 1, o.pool, most);
      }
    }
  }

  /** `log` goes on to `longer`; if `taken`, the next thing in it is a result. */
  ghost predicate GoesOn(log: seq<Event>, longer: seq<Event>, taken: bool) {
    log <= longer && (taken ==> |longer| > |log| && longer[|log|].Taken?)
  }

  lemma GoesFurther(log: seq<Event>, longer: seq<Event>, longest: seq<Event>, taken: bool)
    requires GoesOn(log, longer, taken) && GoesOn(longer, longest, false)
    ensures GoesOn(log, longest, taken)
  {
  }

  lemma TakeOneLog<R>(job: Job<R>, future: nat, p: Pool<R>)
    requires |p.selected| == |job.rows| && future in p.pending && p.pending[future] < |job.rows|
    ensures GoesOn(p.log, RunLog(TakeOne(job, future, p)), true)
  {
  }

  lemma {:induction false} TakeDoneLog<R>(job: Job<R>, done: seq<nat>, p: Pool<R>, most: nat)
    requires Running(job, p, most) && Among(done, p.pending.Keys)
    ensures GoesOn(p.log, RunLog(TakeDone(job, done, p, most)), done != [])
    decreases |done|
  {
    if done != [] {
      TakeOneLog(job, done[0], p);
      TakeDoneStep(job, done, p, most);
      var o := TakeOne(job, done[0], p);
      if o.Going? {
        TakeDoneLog(job, done[1..], o.pool, most);
        GoesFurther(p.log, o.pool.log, RunLog(TakeDone(job, done, p, most)), true);
      }
    }
  }

  /** One wait. */
  lemma WaitsNext<R>(job: Job<R>, choose: (nat, set<nat>) -> seq<nat>, n: nat, p: Pool<R>, most: nat)
    requires Running(job, p, most) && Completes(choose) && p.pending != map[]
    ensures Batch(choose(n, p.pending.Keys), p.pending.Keys)
    ensures var o := TakeDone(job, choose(n, p.pending.Keys), p, most);
            Waits(job, choose, n, p, most) == if o.Failed? then o else Waits(job, choose, n + 1, o.pool, most)
  {
    assert Batch(choose(n, p.pending.Keys), p.pending.Keys);
  }

  lemma WaitLog<R>(job: Job<R>, p: Pool<R>, o: Outcome<R>, end: Outcome<R>)
    requires GoesOn(p.log, RunLog(o), true) && if o.Failed? then end == o else GoesOn(o.pool.log, RunLog(end), false)
    ensures GoesOn(p.log, RunLog(end), true)
  {
  }

  lemma {:induction false} WaitsLog<R>(job: Job<R>, choose: (nat, set<nat>) -> seq<nat>, n: nat, p: Pool<R>, most: nat)
    requires Running(job, p, most) && Completes(choose)
    ensures GoesOn(p.log, RunLog(Waits(job, choose, n, p, most)), p.pending != map[])
    decreases Left(p, |job.rows|)
  {
    if p.pending != map[] {
      var done := choose(n, p.pending.Keys);
      WaitsNext(job, choose, n, p, most);
      TakeDoneLog(job, done, p, most);
      var o := TakeDone(job, done, p, most);
      if o.Going? {
        WaitsLog(job, choose, n + 1, o.pool, most);
      }
      WaitLog(job, p, o, Waits(job, choose, n, p, most));
    }
  }

  lemma SubmitsKept(log: seq<Event>, longer: seq<Event>, n: nat)
    requires Submits(log, n) && |log| == n && GoesOn(log, longer, true)
    ensures n < |longer| && longer[n].Taken? && Submits(longer, n)
  {
  }

  /** Two rows for each worker, or all if there are fewer, are submitted before the first result is taken. */
  lemma StartsFull<R>(job: Job<R>, workers: int, choose: (nat, set<nat>) -> seq<nat>)
    requires workers > 0 && job.rows != [] && Completes(choose)
    ensures var log, first := RunLog(PoolRun(job, workers, choose)), if 2 * workers < |job.rows| then 2 * workers else |job.rows|;
            first < |log| && log[first].Taken? && Submits(log, first)
  {
    var most := Window(workers, |job.rows|);
    var p := Filled(job, most);
    assert |p.pending| > 0;
    WaitsLog(job, choose, 0, p, most);
    SubmitsKept(p.log, RunLog(PoolRun(job, workers, choose)), most);
  }

  lemma PreparedReference<R>(job: Job<R>, items: seq<Item<R>>)
    requires ValidBudget(job) && AllPrepared(job, items)
    ensures Reference(job, Ok(items))
  {
    SequentialReference(job, Ok(items));
  }

  /** What a pool returns over rows is what the reference says of the rows: all prepared, or a refusal one of them earns. */
  lemma PoolPrepares<R>(job: Job<R>, workers: int, choose: (nat, set<nat>) -> seq<nat>, items: seq<Item<R>>)
    requires workers > 0 && job.rows != [] && ValidBudget(job) && Completes(choose)
    requires PoolResult(job, workers, choose) == Ok(items)
    ensures Reference(job, Ok(items))
  {
    assert AllPrepared(job, items);
    PreparedReference(job, items);
  }

  lemma PoolRefuses<R>(job: Job<R>, workers: int, choose: (nat, set<nat>) -> seq<nat>, e: Error) returns (i: int)
    requires workers > 0 && job.rows != [] && ValidBudget(job) && Completes(choose)
    requires PoolResult(job, workers, choose) == Err(e)
    ensures Refused(job, i, e)
  {
    EveryRun(job, workers, choose);
    i :| 0 <= i && Reportable(job, i, e, Window(workers, |job.rows|));
    FailsRefused(job, i, e);
  }

  lemma FailsRefused<R>(job: Job<R>, i: int, e: Error)
    requires ValidBudget(job) && FailsAt(job, i, e)
    ensures Refused(job, i, e)
  {
    RowPrepared(job, i);
  }

  /**
   Whatever the pool does: never more than 2 * workers rows in flight, each row submitted at most once and in
   order, all of them on success; a reported error is that of one of the first `Window` failing rows.
   */
  lemma EveryRun<R>(job: Job<R>, workers: int, choose: (nat, set<nat>) -> seq<nat>)
    requires workers > 0 && job.rows != [] && Completes(choose)
    ensures var o, most := PoolRun(job, workers, choose), Window(workers, |job.rows|);
            && most <= 2 * workers && most <= |job.rows|
            && Bounded(RunLog(o), most) && Submissions(RunLog(o)) == Upto(|Submissions(RunLog(o))|)
            && |Submissions(RunLog(o))| <= |job.rows|
            && (o.Going? ==> |Submissions(RunLog(o))| == |job.rows| && InFlight(RunLog(o)) == {})
            && (o.Failed? ==> exists i :: Reportable(job, i, o.error, most))
  {
    WaitsSound(job, choose, 0, Filled(job, Window(workers, |job.rows|)), Window(workers, |job.rows|));
    var o := PoolRun(job, workers, choose);
    if o.Going? {
      assert |o.pool.pending| == 0;
    }
  }

  // ----- a pool that reports a given row

  /** Rows that succeed go first, then row `target`; failing rows other than it are kept pending. */
  ghost function Steer<R>(job: Job<R>, target: nat, pending: set<nat>): (done: seq<nat>)
    ensures pending != {} ==> Batch(done, pending)
  {
    if exists j :: j in pending && j < |job.rows| && PrepareOne(job, job.rows[j]).Ok? then
      var j :| j in pending && j < |job.rows| && PrepareOne(job, job.rows[j]).Ok?;
      [j]
    else if target in pending || pending == {} then [target]
    else
      var j :| j in pending;
      [j]
  }

  ghost function Steering<R>(job: Job<R>, target: nat): (choose: (nat, set<nat>) -> seq<nat>)
    ensures Completes(choose) && forall n, pending :: choose(n, pending) == Steer(job, target, pending)
  {
    (n: nat, pending: set<nat>) => Steer(job, target, pending)
  }

  /** One wait that takes one result. */
  lemma WaitForOne<R>(job: Job<R>, choose: (nat, set<nat>) -> seq<nat>, n: nat, p: Pool<R>, most: nat, future: nat)
    requires Running(job, p, most) && Completes(choose) && future in p.pending && choose(n, p.pending.Keys) == [future]
    ensures var o := TakeOne(job, future, p);
            if o.Failed? then Waits(job, choose, n, p, most) == o
            else Running(job, o.pool, most) && Left(o.pool, |job.rows|) < Left(p, |job.rows|)
                 && Waits(job, choose, n, p, most) == Waits(job, choose, n + 1, o.pool, most)
  {
    TakeDoneStep(job, [future], p, most);
    if PrepareOne(job, job.rows[future]).Ok? {
      ReplaceRunning(job, p, future, most);
      assert [future][1..] == [];
    }
  }

  /** A failing row is pending or not submitted yet; when all pending rows fail it is pending, if it is early enough. */
  lemma TargetPending<R>(job: Job<R>, target: nat, e: Error, p: Pool<R>, most: nat)
    requires Running(job, p, most) && Reportable(job, target, e, most)
    ensures p.pending.Keys != {}
    ensures (forall j :: j in p.pending.Keys ==> PrepareOne(job, job.rows[j]).Err?) ==> target in p.pending.Keys
  {
    assert p.selected[target] == None;
    assert |p.pending.Keys| == |p.pending|;
    if target !in p.pending.Keys && forall j :: j in p.pending.Keys ==> PrepareOne(job, job.rows[j]).Err? {
      assert p.pending.Keys <= Failing(job, target);
      SubsetSize(p.pending.Keys, Failing(job, target));
      assert false;
    }
  }

  lemma SteerPicks<R>(job: Job<R>, target: nat, e: Error, p: Pool<R>, most: nat) returns (future: nat)
    requires Running(job, p, most) && Reportable(job, target, e, most)
    ensures future in p.pending.Keys && Steer(job, target, p.pending.Keys) == [future]
    ensures future == target || PrepareOne(job, job.rows[future]).Ok?
  {
    TargetPending(job, target, e, p, most);
    future := Steer(job, target, p.pending.Keys)[0];
  }

  lemma {:induction false} SteeredWaits<R>(job: Job<R>, target: nat, e: Error, n: nat, p: Pool<R>, most: nat)
    requires Running(job, p, most) && Reportable(job, target, e, most)
    ensures Waits(job, Steering(job, target), n, p, most).Failed?
    ensures Waits(job, Steering(job, target), n, p, most).error == e
    decreases Left(p, |job.rows|)
  {
    var future := SteerPicks(job, target, e, p, most);
    WaitForOne(job, Steering(job, target), n, p, most, future);
    if PrepareOne(job, job.rows[future]).Ok? {
      SteeredWaits(job, target, e, n + 1, TakeOne(job, future, p).pool, most);
    }
  }

  /** Each of the first `Window` failing rows is reported by some pool. */
  lemma EveryReport<R>(job: Job<R>, workers: int, target: nat, e: Error)
    requires workers > 0 && Reportable(job, target, e, Window(workers, |job.rows|))
    ensures PoolResult(job, workers, Steering(job, target)) == Err(e)
  {
    var most := Window(workers, |job.rows|);
    SteeredWaits(job, target, e, 0, Filled(job, most), most);
  }

  // ----- parallel against sequential

  /** The first `most` failing rows fail alike. */
  ghost predicate AlikeAtFirst<R>(job: Job<R>, most: nat) {
    forall i, j, e, f :: Reportable(job, i, e, most) && Reportable(job, j, f, most) ==> e == f
  }

  /** The reference's error is that of a row that no failing row precedes, which any pool may report. */
  lemma SequentialReportable<R>(job: Job<R>, s: Result<seq<Item<R>>, Error>, most: nat)
    requires Sequential(job, s) && s.Err? && job.rows != [] && most > 0
    ensures exists i :: Reportable(job, i, s.error, most)
  {
    if !ValidBudget(job) {
      assert Failing(job, 0) == {};
      assert Reportable(job, 0, s.error, most);
    } else {
      var i :| FailsAt(job, i, s.error) && forall j :: 0 <= j < i ==> PrepareOne(job, job.rows[j]).Ok?;
      assert Failing(job, i) == {};
      assert Reportable(job, i, s.error, most);
    }
  }

  /** When the reference succeeds, so does every pool, with the same list; when it fails, so does every pool. */
  lemma SuccessAgrees<R>(job: Job<R>, workers: int, choose: (nat, set<nat>) -> seq<nat>, s: Result<seq<Item<R>>, Error>)
    requires workers > 0 && job.rows != [] && Completes(choose) && Sequential(job, s)
    ensures PoolResult(job, workers, choose).Ok? <==> s.Ok?
    ensures s.Ok? ==> PoolResult(job, workers, choose) == s
  {
    EveryRun(job, workers, choose);
    var r := PoolResult(job, workers, choose);
    if r.Ok? && s.Ok? {
      assert r.value == s.value;
    }
  }

  /**
   The parallel form agrees with the reference for every behaviour of the pool if and only if the first
   `Window(workers, |rows|)` failing rows fail alike; without rows, if and only if the budgets are valid.
   */
  lemma ParallelMatchesSequential<R>(job: Job<R>, workers: int, s: Result<seq<Item<R>>, Error>)
    requires workers > 0 && Sequential(job, s)
    ensures (forall choose :: Completes(choose) ==> PoolResult(job, workers, choose) == s) <==>
            if job.rows == [] then ValidBudget(job) else AlikeAtFirst(job, Window(workers, |job.rows|))
  {
    if job.rows == [] {
      assert Completes(Steering(job, 0));
      assert PoolResult(job, workers, Steering(job, 0)) == Ok([]);
    } else {
      AgreeThenAlike(job, workers, s);
      AlikeThenAgree(job, workers, s);
    }
  }

  lemma AgreeThenAlike<R>(job: Job<R>, workers: int, s: Result<seq<Item<R>>, Error>)
    requires workers > 0 && job.rows != [] && Sequential(job, s)
    ensures (forall choose :: Completes(choose) ==> PoolResult(job, workers, choose) == s)
            ==> AlikeAtFirst(job, Window(workers, |job.rows|))
  {
    var most := Window(workers, |job.rows|);
    if forall choose :: Completes(choose) ==> PoolResult(job, workers, choose) == s {
      forall i, e | Reportable(job, i, e, most) ensures s == Err(e) {
        EveryReport(job, workers, i, e);
        assert Completes(Steering(job, i));
      }
    }
  }

  lemma AlikeThenAgree<R>(job: Job<R>, workers: int, s: Result<seq<Item<R>>, Error>)
    requires workers > 0 && job.rows != [] && Sequential(job, s)
    ensures AlikeAtFirst(job, Window(workers, |job.rows|))
            ==> forall choose :: Completes(choose) ==> PoolResult(job, workers, choose) == s
  {
    var most := Window(workers, |job.rows|);
    if AlikeAtFirst(job, most) {
      forall choose | Completes(choose) ensures PoolResult(job, workers, choose) == s {
        SuccessAgrees(job, workers, choose, s);
        EveryRun(job, workers, choose);
        if s.Err? {
          SequentialReportable(job, s, most);
        }
      }
    }
  }

  /** A job of two rows that fail differently. */
  function TwoFailures(): Job<int> {
    Job(Tools(row => "", row => Err(RowError(row)), s => [], ids => "", s => Err(RowError(0)), s => ""), [1, 2], 1, 1)
  }

  /** With one worker the second row's error is reported when it is done first; the reference reports the first row's. */
  lemma SecondFailureReported()
    ensures Sequential(TwoFailures(), Err(RowError(1)))
    ensures PoolResult(TwoFailures(), 1, Steering(TwoFailures(), 1)) == Err(RowError(2))
  {
    var job := TwoFailures();
    assert FailsAt(job, 0, RowError(1)) && FailsAt(job, 1, RowError(2));
    assert Failing(job, 1) == {0};
    EveryReport(job, 1, 1, RowError(2));
  }
}
