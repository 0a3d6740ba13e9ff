/**
 Token-stratified sample selection of long_bench_v2/contracts.py: bucket validation, the streaming
 insert-sort-pop selection, and what it selects. The prompt preparation and the selection digest are
 parameters; Python's sort key (digest, id) is compared by code points.
 */
module SampleSelection {
  import opened Wrappers
  import opened Sorting
  import opened Sequences

  datatype Sample = Sample(id: string, content: string)

  datatype Bucket = Bucket(name: string, minTokens: int, maxTokens: int, samples: int) {
    predicate Contains(tokens: int) { minTokens <= tokens <= maxTokens }
  }

  /** A decoded JSON entry; None stands for a missing value or one of the wrong type. */
  datatype RawBucket = NotObject | Object(name: Option<string>, minTokens: Option<int>, maxTokens: Option<int>, samples: Option<int>)

  datatype Error =
    | NoBuckets | BadObject(index: nat) | BadName(index: nat) | DuplicateName(index: nat)
    | NotPositive(index: nat) | EmptyRange(index: nat) | Overlap(previous: nat, index: nat)
    | Insufficient(bucket: nat, available: nat)

  // ----- bucket validation

  predicate Positive(n: Option<int>) { n.Some? && n.value > 0 }

  predicate WellFormed(raw: RawBucket) {
    && raw.Object?
    && raw.name.Some? && raw.name.value != ""
    && Positive(raw.minTokens) && Positive(raw.maxTokens) && Positive(raw.samples)
    && raw.minTokens.value <= raw.maxTokens.value
  }

  function ToBucket(raw: RawBucket): Bucket
    requires WellFormed(raw)
  {
    Bucket(raw.name.value, raw.minTokens.value, raw.maxTokens.value, raw.samples.value)
  }

  predicate Disjoint(a: Bucket, b: Bucket) { b.maxTokens < a.minTokens || b.minTokens > a.maxTokens }

  /** Distinct names, ranges of positive tokens that do not meet, a positive quota each. */
  ghost predicate ValidBuckets(buckets: seq<Bucket>) {
    && (forall i :: 0 <= i < |buckets| ==> 1 <= buckets[i].minTokens <= buckets[i].maxTokens && buckets[i].samples >= 1)
    && (forall i, j :: 0 <= i < j < |buckets| ==> buckets[i].name != buckets[j].name && Disjoint(buckets[i], buckets[j]))
  }

  ghost predicate Acceptable(raw: seq<RawBucket>) {
    && (forall i :: 0 <= i < |raw| ==> WellFormed(raw[i]))
    && (forall i, j :: 0 <= i < j < |raw| ==>
          raw[i].name != raw[j].name && Disjoint(ToBucket(raw[i]), ToBucket(raw[j])))
  }

  predicate PositiveNumbers(raw: RawBucket) {
    raw.Object? && Positive(raw.minTokens) && Positive(raw.maxTokens) && Positive(raw.samples)
  }

  /** The error names entry `i` and a fault it has: its own, or a clash with an earlier entry. */
  ghost predicate Blames(e: Error, raw: seq<RawBucket>, i: nat)
    requires i < |raw|
  {
    match e
    case BadObject(k) => k == i && raw[i].NotObject?
    case BadName(k) => k == i && raw[i].Object? && (raw[i].name == None || raw[i].name == Some(""))
    case DuplicateName(k) => k == i && raw[i].Object? && exists j :: 0 <= j < i && raw[j].Object? && raw[j].name == raw[i].name
    case NotPositive(k) => k == i && raw[i].Object? && !PositiveNumbers(raw[i])
    case EmptyRange(k) => k == i && PositiveNumbers(raw[i]) && raw[i].minTokens.value > raw[i].maxTokens.value
    case Overlap(p, k) =>
      k == i && p < i && WellFormed(raw[p]) && WellFormed(raw[i]) && !Disjoint(ToBucket(raw[p]), ToBucket(raw[i]))
      && forall q :: 0 <= q < p ==> WellFormed(raw[q]) && Disjoint(ToBucket(raw[q]), ToBucket(raw[i]))
    case _ => false
  }

  /** The first entry that cannot be accepted is blamed. */
  ghost predicate FirstFault(e: Error, raw: seq<RawBucket>) {
    if raw == [] then e == NoBuckets
    else exists i :: 0 <= i < |raw| && Acceptable(raw[..i]) && !Acceptable(raw[..i + 1]) && Blames(e, raw, i)
  }

  /** parse_token_buckets on decoded input. */
  method ParseBuckets(raw: seq<RawBucket>) returns (r: Result<seq<Bucket>, Error>)
    ensures r.Ok? <==> raw != [] && Acceptable(raw)
    ensures r.Err? ==> FirstFault(r.error, raw)
    ensures r.Ok? ==> ValidBuckets(r.value) && |r.value| == |raw|
                      && forall i :: 0 <= i < |raw| ==> r.value[i] == ToBucket(raw[i])
  {
    if raw == [] {
      return Err(NoBuckets);
    }
    var buckets: seq<Bucket> := [];
    var names: set<string> := {};
    var index := 0;
    while index < |raw|
      invariant 0 <= index <= |raw| && |buckets| == index
      invariant Acceptable(raw[..index])
      invariant forall i :: 0 <= i < index ==> WellFormed(raw[i]) && buckets[i] == ToBucket(raw[i])
      invariant forall n :: n in names <==> exists i :: 0 <= i < index && buckets[i].name == n
    {
      var fault := CheckBucket(raw, index, buckets, names);
      if fault.Some? {
        RejectPrefix(raw, index);
        return Err(fault.value);
      }
      assert raw[..index + 1] == raw[..index] + [raw[index]];
      var bucket := ToBucket(raw[index]);
      buckets := buckets + [bucket];
      names := names + {bucket.name};
      index := index + 1;
    }
    assert raw[..index] == raw;
    r := Ok(buckets);
  }

  lemma RejectPrefix(raw: seq<RawBucket>, index: nat)
    requires index < |raw| && !Acceptable(raw[..index + 1])
    ensures !Acceptable(raw)
  {
    if Acceptable(raw) {
      AcceptPrefix(raw, index + 1);
      assert false;
    }
  }

  lemma AcceptPrefix(raw: seq<RawBucket>, n: nat)
    requires n <= |raw| && Acceptable(raw)
    ensures Acceptable(raw[..n])
  {
  }

  /** The checks on one entry, in the source's order. */
  method CheckBucket(raw: seq<RawBucket>, index: nat, buckets: seq<Bucket>, names: set<string>) returns (fault: Option<Error>)
    requires index < |raw| && |buckets| == index && Acceptable(raw[..index])
    requires forall i :: 0 <= i < index ==> WellFormed(raw[i]) && buckets[i] == ToBucket(raw[i])
    requires forall n :: n in names <==> exists i :: 0 <= i < index && buckets[i].name == n
    ensures fault == None <==> Acceptable(raw[..index + 1])
    ensures fault.Some? ==> Blames(fault.value, raw, index)
  {
    var item := raw[index];
    assert raw[..index + 1] == raw[..index] + [item];
    assert raw[..index + 1][index] == item;
    if item.NotObject? {
      return Some(BadObject(index));
    }
    if item.name == None || item.name.value == "" {
      return Some(BadName(index));
    }
    if item.name.value in names {
      ghost var i :| 0 <= i < index && buckets[i].name == item.name.value;
      assert raw[..index + 1][i] == raw[i] && raw[i].name == item.name;
      return Some(DuplicateName(index));
    }
    if !Positive(item.minTokens) || !Positive(item.maxTokens) || !Positive(item.samples) {
      return Some(NotPositive(index));
    }
    if item.minTokens.value > item.maxTokens.value {
      return Some(EmptyRange(index));
    }
    var bucket := ToBucket(item);
    var p := 0;
    while p < |buckets|
      invariant 0 <= p <= |buckets|
      invariant forall q :: 0 <= q < p ==> Disjoint(buckets[q], bucket)
    {
      if !Disjoint(buckets[p], bucket) {
        assert raw[..index + 1][p] == raw[p];
        return Some(Overlap(p, index));
      }
      p := p + 1;
    }
    fault := None;
    ghost var all := raw[..index + 1];
    assert forall i :: 0 <= i < index ==> all[i] == raw[..index][i] == raw[i];
    assert forall i :: 0 <= i < index ==> raw[i].name != item.name by {
      forall i | 0 <= i < index ensures raw[i].name != item.name {
        assert buckets[i].name == raw[i].name.value;
      }
    }
  }

  /** The decoded entry that describes a bucket. */
  function Describes(b: Bucket): RawBucket { Object(Some(b.name), Some(b.minTokens), Some(b.maxTokens), Some(b.samples)) }

  /** The length lies in the bucket's range, ends included. */
  ghost predicate InRange(b: Bucket, n: int) { b.minTokens <= n <= b.maxTokens }

  ghost predicate NoneShared(a: Bucket, b: Bucket) { forall n :: InRange(a, n) ==> !InRange(b, n) }

  /** Named ranges of positive lengths with a quota, no name twice, and no length in two of them. */
  ghost predicate Separate(buckets: seq<Bucket>) {
    && (forall i :: 0 <= i < |buckets| ==>
          buckets[i].name != "" && 1 <= buckets[i].minTokens <= buckets[i].maxTokens && 1 <= buckets[i].samples)
    && (forall i, j :: 0 <= i < j < |buckets| ==>
          buckets[i].name != buckets[j].name && NoneShared(buckets[i], buckets[j]))
  }

  lemma DisjointExact(a: Bucket, b: Bucket)
    requires a.minTokens <= a.maxTokens && b.minTokens <= b.maxTokens
    ensures Disjoint(a, b) <==> NoneShared(a, b)
  {
    if !Disjoint(a, b) {
      var n := if a.minTokens >= b.minTokens then a.minTokens else b.minTokens;
      assert InRange(a, n) && InRange(b, n);
    }
  }

  /** The list is acceptable exactly if it describes separate buckets. */
  lemma AcceptsExactly(raw: seq<RawBucket>)
    ensures Acceptable(raw) <==>
            exists buckets :: |buckets| == |raw| && Separate(buckets) && forall i :: 0 <= i < |raw| ==> raw[i] == Describes(buckets[i])
  {
    if Acceptable(raw) {
      var buckets := seq(|raw|, i requires 0 <= i < |raw| => ToBucket(raw[i]));
      forall i, j | 0 <= i < j < |raw| ensures buckets[i].name != buckets[j].name && NoneShared(buckets[i], buckets[j]) {
        assert raw[i].name != raw[j].name;
        DisjointExact(buckets[i], buckets[j]);
      }
      assert forall i :: 0 <= i < |raw| ==> raw[i] == Describes(buckets[i]);
    }
    if buckets :| |buckets| == |raw| && Separate(buckets) && forall i :: 0 <= i < |raw| ==> raw[i] == Describes(buckets[i]) {
      DescribedAccepted(raw, buckets);
    }
  }

  lemma DescribedAccepted(raw: seq<RawBucket>, buckets: seq<Bucket>)
    requires |buckets| == |raw| && Separate(buckets) && forall i :: 0 <= i < |raw| ==> raw[i] == Describes(buckets[i])
    ensures Acceptable(raw)
  {
    forall i | 0 <= i < |raw| ensures WellFormed(raw[i]) && ToBucket(raw[i]) == buckets[i] {
      assert raw[i] == Describes(buckets[i]);
    }
    forall i, j | 0 <= i < j < |raw| ensures raw[i].name != raw[j].name && Disjoint(ToBucket(raw[i]), ToBucket(raw[j])) {
      assert raw[i] == Describes(buckets[i]) && raw[j] == Describes(buckets[j]);
      DisjointExact(buckets[i], buckets[j]);
    }
  }

  // ----- the selection order

  predicate StrLe(a: string, b: string) {
    a == [] || (b != [] && (a[0] < b[0] || (a[0] == b[0] && StrLe(a[1..], b[1..]))))
  }

  lemma {:induction false} StrLeTotal(a: string, b: string)
    ensures StrLe(a, b) || StrLe(b, a)
    ensures StrLe(a, b) && StrLe(b, a) ==> a == b
  {
    if a != [] && b != [] {
      StrLeTotal(a[1..], b[1..]);
      assert a == [a[0]] + a[1..] && b == [b[0]] + b[1..];
    }
  }

  lemma {:induction false} StrLeTransitive(a: string, b: string, c: string)
    requires StrLe(a, b) && StrLe(b, c)
    ensures StrLe(a, c)
  {
    if a != [] && a[0] == b[0] == c[0] {
      StrLeTransitive(a[1..], b[1..], c[1..]);
    }
  }

  datatype Candidate = Candidate(sourceIndex: nat, sample: Sample, prompt: string, tokenIds: seq<int>, bucket: string, key: string)

  predicate CandidateLe(a: Candidate, b: Candidate) {
    if a.key == b.key then StrLe(a.sample.id, b.sample.id) else StrLe(a.key, b.key)
  }

  lemma CandidateOrder()
    ensures TotalPreorder(CandidateLe)
  {
    forall a, b ensures CandidateLe(a, b) || CandidateLe(b, a) {
      StrLeTotal(a.key, b.key);
      StrLeTotal(a.sample.id, b.sample.id);
    }
    forall a, b, c | CandidateLe(a, b) && CandidateLe(b, c) ensures CandidateLe(a, c) {
      if a.key == b.key == c.key {
        StrLeTransitive(a.sample.id, b.sample.id, c.sample.id);
      } else {
        StrLeTotal(a.key, b.key);
        StrLeTotal(b.key, c.key);
        StrLeTransitive(a.key, b.key, c.key);
        StrLeTotal(a.key, c.key);
      }
    }
  }

  // ----- what each bucket is offered

  datatype Setup = Setup(buckets: seq<Bucket>, prepare: Sample -> (string, seq<int>), digest: string -> string, maxTokens: int)

  /** `matching[0]`, if the prompt is admissible and some bucket contains it. */
  function FirstBucket(buckets: seq<Bucket>, tokens: int): (r: Option<nat>)
    ensures r.Some? ==> r.value < |buckets| && buckets[r.value].Contains(tokens)
    ensures r.None? ==> forall i :: 0 <= i < |buckets| ==> !buckets[i].Contains(tokens)
  {
    if buckets == [] then None
    else if buckets[0].Contains(tokens) then Some(0)
    else
      match FirstBucket(buckets[1..], tokens)
      case None =>
        assert forall i :: 0 < i < |buckets| ==> buckets[i] == buckets[1..][i - 1];
        None
      case Some(i) => Some(i + 1)
  }

  function Place(s: Setup, sample: Sample): Option<nat> {
    var tokens := |s.prepare(sample).1|;
    if tokens <= 0 || tokens > s.maxTokens then None else FirstBucket(s.buckets, tokens)
  }

  /** Accepted buckets never compete: a row goes to the one bucket whose range holds its length, wherever that stands. */
  lemma PlacedExactly(s: Setup, sample: Sample, b: nat)
    requires ValidBuckets(s.buckets) && b < |s.buckets|
    ensures var tokens := |s.prepare(sample).1|;
            Place(s, sample) == Some(b) <==> 0 < tokens <= s.maxTokens && s.buckets[b].Contains(tokens)
  {
    var place := FirstBucket(s.buckets, |s.prepare(sample).1|);
    if place.Some? && place.value < b {
      assert Disjoint(s.buckets[place.value], s.buckets[b]);
    } else if place.Some? && b < place.value {
      assert Disjoint(s.buckets[b], s.buckets[place.value]);
    }
  }

  function MakeCandidate(s: Setup, sourceIndex: nat, sample: Sample, name: string): Candidate {
    Candidate(sourceIndex, sample, s.prepare(sample).0, s.prepare(sample).1, name, s.digest(sample.id))
  }

  /** All candidates of bucket `b`, in source order: no quota, no order. */
  ghost function Offered(s: Setup, rows: seq<Sample>, b: nat): seq<Candidate>
    requires b < |s.buckets|
  {
    if rows == [] then []
    else
      var n := |rows| - 1;
      Offered(s, rows[..n], b)
      + (if Place(s, rows[n]) == Some(b) then [MakeCandidate(s, n, rows[n], s.buckets[b].name)] else [])
  }

  /** The reference: sort all candidates of the bucket, keep the first `samples`. */
  ghost function Best(s: Setup, rows: seq<Sample>, b: nat): seq<Candidate>
    requires b < |s.buckets| && s.buckets[b].samples >= 0
  {
    Take(Sort(CandidateLe, Offered(s, rows, b)), s.buckets[b].samples)
  }

  // ----- streaming keeps the best

  lemma {:induction false} TakeInsert<T>(le: (T, T) -> bool, xs: seq<T>, x: T, n: nat)
    ensures Take(Insert(le, Take(xs, n), x), n) == Take(Insert(le, xs, x), n)
  {
    if xs != [] && n > 0 && le(xs[0], x) {
      TakeInsert(le, xs[1..], x, n - 1);
      assert Take(xs, n) == [xs[0]] + Take(xs[1..], n - 1);
      assert Take(xs, n)[1..] == Take(xs[1..], n - 1);
      var a, b := Insert(le, Take(xs[1..], n - 1), x), Insert(le, xs[1..], x);
      assert Take([xs[0]] + a, n) == [xs[0]] + Take(a, n - 1);
      assert Take([xs[0]] + b, n) == [xs[0]] + Take(b, n - 1);
    } else if xs != [] && n > 0 {
      assert Take([x] + Take(xs, n), n) == Take([x] + xs, n);
    }
  }

  /** Append, sort, and drop the last when over quota: again the best of everything offered so far. */
  lemma StreamingStep<T(!new)>(le: (T, T) -> bool, offered: seq<T>, x: T, n: nat)
    requires TotalPreorder(le)
    ensures Take(Sort(le, Take(Sort(le, offered), n) + [x]), n) == Take(Sort(le, offered + [x]), n)
  {
    var kept := Take(Sort(le, offered), n);
    SortSorted(le, offered);
    SortOfSorted(le, kept);
    SortSnoc(le, kept, x);
    SortSnoc(le, offered, x);
    TakeInsert(le, Sort(le, offered), x, n);
  }

  // ----- what is chosen, without sorting

  /** `a` comes before `b`: at the first code point that differs, or because it ends first. */
  ghost predicate Earlier(a: string, b: string) {
    exists k :: 0 <= k <= |a| && EarlierAt(a, b, k)
  }

  ghost predicate EarlierAt(a: string, b: string, k: nat)
    requires k <= |a|
  {
    k < |b| && a[..k] == b[..k] && (k == |a| || a[k] < b[k])
  }

  lemma PrefixStep(a: string, k: nat)
    requires 0 < k <= |a|
    ensures a[..k] == [a[0]] + a[1..][..k - 1] && a[..k][1..] == a[1..][..k - 1]
  {
  }

  lemma EarlierTail(a: string, b: string)
    requires a != [] && b != [] && a[0] == b[0]
    ensures Earlier(a, b) <==> Earlier(a[1..], b[1..])
  {
    forall k | 0 < k <= |a| ensures EarlierAt(a, b, k) <==> EarlierAt(a[1..], b[1..], k - 1) {
      if k < |b| {
        PrefixStep(a, k);
        PrefixStep(b, k);
      }
    }
    if k :| 0 <= k <= |a| && EarlierAt(a, b, k) {
      assert EarlierAt(a[1..], b[1..], k - 1);
    }
    if k :| 0 <= k <= |a[1..]| && EarlierAt(a[1..], b[1..], k) {
      assert EarlierAt(a, b, k + 1);
    }
  }

  lemma EarlierHead(a: string, b: string)
    requires a != [] && b != [] && a[0] != b[0]
    ensures Earlier(a, b) <==> a[0] < b[0]
  {
    assert EarlierAt(a, b, 0) <==> a[0] < b[0];
    forall k | 0 < k <= |a| ensures !EarlierAt(a, b, k) {
      assert k < |b| ==> a[..k][0] != b[..k][0];
    }
  }

  lemma {:induction false} StrLeExact(a: string, b: string)
    ensures StrLe(a, b) <==> !Earlier(b, a)
  {
    if a != [] && b == [] {
      assert EarlierAt(b, a, 0);
    } else if a != [] && a[0] == b[0] {
      StrLeExact(a[1..], b[1..]);
      EarlierTail(b, a);
    } else if a != [] {
      EarlierHead(b, a);
    }
  }

  /** The selection order on samples: by digest, then by id. */
  ghost predicate Before(s: Setup, x: Sample, y: Sample) {
    Earlier(s.digest(x.id), s.digest(y.id)) || (s.digest(x.id) == s.digest(y.id) && Earlier(x.id, y.id))
  }

  lemma OrderMeans(s: Setup, c: Candidate, d: Candidate)
    requires c.key == s.digest(c.sample.id) && d.key == s.digest(d.sample.id)
    ensures CandidateLe(c, d) <==> !Before(s, d.sample, c.sample)
  {
    StrLeExact(c.key, d.key);
    StrLeExact(c.sample.id, d.sample.id);
    StrLeTotal(c.key, d.key);
    StrLeExact(d.key, c.key);
  }

  /** The sample's prompt is admissible and its length lies in the bucket's range, ends included. */
  ghost predicate Fits(s: Setup, sample: Sample, b: Bucket) {
    var tokens := |s.prepare(sample).1|; 1 <= tokens <= s.maxTokens && InRange(b, tokens)
  }

  ghost function FittingRows(s: Setup, rows: seq<Sample>, b: Bucket): set<nat> {
    set n: nat | n < |rows| && Fits(s, rows[n], b)
  }

  /** The entry made of row `n` for bucket `b`. */
  ghost predicate EntryOf(s: Setup, rows: seq<Sample>, b: Bucket, c: Candidate) {
    && c.sourceIndex in FittingRows(s, rows, b) && c.sample == rows[c.sourceIndex]
    && c.prompt == s.prepare(c.sample).0 && c.tokenIds == s.prepare(c.sample).1
    && c.bucket == b.name && c.key == s.digest(c.sample.id)
  }

  /** A bucket's choice: its quota of different fitting rows in selection order, and no row left out comes before one of them. */
  ghost predicate Chosen(s: Setup, rows: seq<Sample>, b: Bucket, part: seq<Candidate>) {
    && |part| == b.samples
    && (forall i :: 0 <= i < |part| ==> EntryOf(s, rows, b, part[i]))
    && (forall i, j :: 0 <= i < j < |part| ==>
          part[i].sourceIndex != part[j].sourceIndex && !Before(s, part[j].sample, part[i].sample))
    && (forall n :: n in FittingRows(s, rows, b) && (forall i :: 0 <= i < |part| ==> part[i].sourceIndex != n) ==>
          forall i :: 0 <= i < |part| ==> !Before(s, rows[n], part[i].sample))
  }

  ghost predicate Entries(s: Setup, rows: seq<Sample>, b: Bucket, cs: seq<Candidate>) {
    forall i :: 0 <= i < |cs| ==> EntryOf(s, rows, b, cs[i])
  }

  ghost predicate InSourceOrder(cs: seq<Candidate>) {
    forall i, j :: 0 <= i < j < |cs| ==> cs[i].sourceIndex < cs[j].sourceIndex
  }

  ghost predicate Covers(cs: seq<Candidate>, rows: set<nat>) {
    forall n :: n in rows ==> exists i :: 0 <= i < |cs| && cs[i].sourceIndex == n
  }

  /** The offered candidates are the entries of the fitting rows, in source order. */
  ghost predicate OffersExactly(s: Setup, rows: seq<Sample>, b: Bucket, cs: seq<Candidate>) {
    Entries(s, rows, b, cs) && InSourceOrder(cs) && Covers(cs, FittingRows(s, rows, b)) && |cs| == |FittingRows(s, rows, b)|
  }

  lemma FittingNext(s: Setup, rows: seq<Sample>, b: Bucket)
    requires rows != []
    ensures var n := |rows| - 1;
            && FittingRows(s, rows, b) == FittingRows(s, rows[..n], b) + (if Fits(s, rows[n], b) then {n} else {})
            && n !in FittingRows(s, rows[..n], b)
            && forall c :: EntryOf(s, rows[..n], b, c) ==> EntryOf(s, rows, b, c)
  {
  }

  lemma OffersKept(s: Setup, rows: seq<Sample>, b: Bucket, cs: seq<Candidate>, all: seq<Candidate>)
    requires rows != [] && OffersExactly(s, rows[..|rows| - 1], b, cs) && !Fits(s, rows[|rows| - 1], b)
    requires all == cs
    ensures OffersExactly(s, rows, b, all)
  {
    FittingNext(s, rows, b);
  }

  lemma EntriesOneMore(s: Setup, rows: seq<Sample>, b: Bucket, cs: seq<Candidate>, c: Candidate)
    requires rows != [] && Entries(s, rows[..|rows| - 1], b, cs) && InSourceOrder(cs)
    requires EntryOf(s, rows, b, c) && c.sourceIndex == |rows| - 1
    ensures Entries(s, rows, b, cs + [c]) && InSourceOrder(cs + [c])
  {
    var all := cs + [c];
    FittingNext(s, rows, b);
    forall i | 0 <= i < |cs| ensures EntryOf(s, rows, b, all[i]) && all[i].sourceIndex < |rows| - 1 {
      assert all[i] == cs[i] && EntryOf(s, rows[..|rows| - 1], b, cs[i]);
    }
  }

  lemma CoversOneMore(cs: seq<Candidate>, c: Candidate, rows: set<nat>)
    requires Covers(cs, rows)
    ensures Covers(cs + [c], rows + {c.sourceIndex})
  {
    var all := cs + [c];
    assert all[|cs|] == c;
    forall n | n in rows ensures exists i :: 0 <= i < |all| && all[i].sourceIndex == n {
      var i :| 0 <= i < |cs| && cs[i].sourceIndex == n;
      assert all[i].sourceIndex == n;
    }
  }

  lemma OffersOneMore(s: Setup, rows: seq<Sample>, b: Bucket, cs: seq<Candidate>, c: Candidate, all: seq<Candidate>)
    requires rows != [] && OffersExactly(s, rows[..|rows| - 1], b, cs) && Fits(s, rows[|rows| - 1], b)
    requires EntryOf(s, rows, b, c) && c.sourceIndex == |rows| - 1 && all == cs + [c]
    ensures OffersExactly(s, rows, b, all)
  {
    FittingNext(s, rows, b);
    EntriesOneMore(s, rows, b, cs, c);
    CoversOneMore(cs, c, FittingRows(s, rows[..|rows| - 1], b));
  }

  lemma {:induction false} OfferedExactly(s: Setup, rows: seq<Sample>, b: nat)
    requires ValidBuckets(s.buckets) && b < |s.buckets|
    ensures OffersExactly(s, rows, s.buckets[b], Offered(s, rows, b))
  {
    if rows != [] {
      var n := |rows| - 1;
      OfferedExactly(s, rows[..n], b);
      PlacedExactly(s, rows[n], b);
      OfferedNext(s, rows, n, b);
      assert rows[..n + 1] == rows;
      if Place(s, rows[n]) == Some(b) {
        var c := MakeCandidate(s, n, rows[n], s.buckets[b].name);
        OffersOneMore(s, rows, s.buckets[b], Offered(s, rows[..n], b), c, Offered(s, rows, b));
      } else {
        OffersKept(s, rows, s.buckets[b], Offered(s, rows[..n], b), Offered(s, rows, b));
      }
    }
  }

  lemma SourcesDiffer(cs: seq<Candidate>, ds: seq<Candidate>, i: nat, j: nat)
    requires InSourceOrder(cs) && multiset(cs) == multiset(ds) && i < j < |ds|
    ensures ds[i].sourceIndex != ds[j].sourceIndex
  {
    assert ds[i] in multiset(cs) && ds[j] in multiset(cs);
    var p :| 0 <= p < |cs| && cs[p] == ds[i];
    var q :| 0 <= q < |cs| && cs[q] == ds[j];
    if ds[i].sourceIndex == ds[j].sourceIndex {
      assert p == q;
      TwiceCount(ds, i, j);
      OnceCount(cs, p);
    }
  }

  lemma {:induction false} OnceCount(cs: seq<Candidate>, p: nat)
    requires InSourceOrder(cs) && p < |cs|
    ensures multiset(cs)[cs[p]] <= 1
  {
    var n := |cs| - 1;
    assert cs == cs[..n] + [cs[n]];
    if p < n {
      OnceCount(cs[..n], p);
      assert cs[p].sourceIndex < cs[n].sourceIndex;
    } else {
      assert cs[n] !in cs[..n];
    }
  }

  /** The offered candidates in selection order. */
  ghost predicate Ranked(s: Setup, rows: seq<Sample>, b: Bucket, ranked: seq<Candidate>) {
    && Entries(s, rows, b, ranked) && Covers(ranked, FittingRows(s, rows, b))
    && forall i, j :: 0 <= i < j < |ranked| ==>
         ranked[i].sourceIndex != ranked[j].sourceIndex && !Before(s, ranked[j].sample, ranked[i].sample)
  }

  lemma SortedEntries(s: Setup, rows: seq<Sample>, b: Bucket, cs: seq<Candidate>, sorted: seq<Candidate>)
    requires OffersExactly(s, rows, b, cs) && multiset(cs) == multiset(sorted)
    ensures Entries(s, rows, b, sorted) && Covers(sorted, FittingRows(s, rows, b))
  {
    SameMembers(cs, sorted);
    forall i | 0 <= i < |sorted| ensures EntryOf(s, rows, b, sorted[i]) {
      assert sorted[i] in cs;
    }
    forall n | n in FittingRows(s, rows, b) ensures exists i :: 0 <= i < |sorted| && sorted[i].sourceIndex == n {
      var k :| 0 <= k < |cs| && cs[k].sourceIndex == n;
      assert cs[k] in sorted;
    }
  }

  lemma SortedRanked(s: Setup, rows: seq<Sample>, b: Bucket, cs: seq<Candidate>, sorted: seq<Candidate>)
    requires OffersExactly(s, rows, b, cs) && multiset(cs) == multiset(sorted) && Sorted(CandidateLe, sorted)
    ensures Ranked(s, rows, b, sorted)
  {
    SortedEntries(s, rows, b, cs, sorted);
    forall i, j | 0 <= i < j < |sorted|
      ensures sorted[i].sourceIndex != sorted[j].sourceIndex && !Before(s, sorted[j].sample, sorted[i].sample)
    {
      SourcesDiffer(cs, sorted, i, j);
      OrderMeans(s, sorted[i], sorted[j]);
    }
  }

  lemma OfferedRanked(s: Setup, rows: seq<Sample>, b: Bucket, cs: seq<Candidate>, sorted: seq<Candidate>)
    requires OffersExactly(s, rows, b, cs) && sorted == Sort(CandidateLe, cs)
    ensures Ranked(s, rows, b, sorted)
  {
    CandidateOrder();
    SortSorted(CandidateLe, cs);
    SortPermutation(CandidateLe, cs);
    SortedRanked(s, rows, b, cs, sorted);
  }

  /** Whoever is left out stands behind all that are taken. */
  lemma RankedChosen(s: Setup, rows: seq<Sample>, b: Bucket, ranked: seq<Candidate>, part: seq<Candidate>)
    requires Ranked(s, rows, b, ranked) && 0 <= b.samples <= |ranked| && part == ranked[..b.samples]
    ensures Chosen(s, rows, b, part)
  {
    assert forall k :: 0 <= k < |part| ==> part[k] == ranked[k];
    forall n, i | n in FittingRows(s, rows, b) && (forall i :: 0 <= i < |part| ==> part[i].sourceIndex != n) && 0 <= i < |part|
      ensures !Before(s, rows[n], part[i].sample)
    {
      var j :| 0 <= j < |ranked| && ranked[j].sourceIndex == n;
      assert EntryOf(s, rows, b, ranked[j]);
    }
  }

  /** A bucket's sorted and cut candidates are its choice, and there are enough of them exactly if enough rows fit. */
  lemma BestChosen(s: Setup, rows: seq<Sample>, b: nat)
    requires ValidBuckets(s.buckets) && b < |s.buckets|
    ensures |Offered(s, rows, b)| == |FittingRows(s, rows, s.buckets[b])|
    ensures |Offered(s, rows, b)| >= s.buckets[b].samples ==> Chosen(s, rows, s.buckets[b], Best(s, rows, b))
  {
    var cs := Offered(s, rows, b);
    OfferedExactly(s, rows, b);
    OfferedRanked(s, rows, s.buckets[b], cs, Sort(CandidateLe, cs));
    if |cs| >= s.buckets[b].samples {
      RankedChosen(s, rows, s.buckets[b], Sort(CandidateLe, cs), Best(s, rows, b));
    }
  }

  // ----- the selection loop

  ghost predicate Streamed(s: Setup, rows: seq<Sample>, candidates: map<string, seq<Candidate>>, counts: map<string, nat>)
    requires ValidBuckets(s.buckets)
  {
    forall b :: 0 <= b < |s.buckets| ==>
      && s.buckets[b].name in candidates && s.buckets[b].name in counts
      && candidates[s.buckets[b].name] == Best(s, rows, b)
      && counts[s.buckets[b].name] == |Offered(s, rows, b)|
  }

  /** The list surgery on one bucket: append, sort, and pop the last when over quota. */
  method Keep(candidates: seq<Candidate>, c: Candidate, samples: int, ghost offered: seq<Candidate>)
    returns (kept: seq<Candidate>)
    requires samples >= 1 && candidates == Take(Sort(CandidateLe, offered), samples)
    ensures kept == Take(Sort(CandidateLe, offered + [c]), samples)
  {
    CandidateOrder();
    StreamingStep(CandidateLe, offered, c, samples);
    kept := Sort(CandidateLe, candidates + [c]);
    if |kept| > samples {
      kept := kept[..|kept| - 1];
    }
  }

  lemma OfferedNext(s: Setup, rows: seq<Sample>, n: nat, b: nat)
    requires n < |rows| && b < |s.buckets|
    ensures Offered(s, rows[..n + 1], b) ==
            if Place(s, rows[n]) == Some(b)
            then Offered(s, rows[..n], b) + [MakeCandidate(s, n, rows[n], s.buckets[b].name)]
            else Offered(s, rows[..n], b)
  {
    assert rows[..n + 1][..n] == rows[..n];
  }

  /** One pass of the first loop: place the row and keep its bucket's best candidates. */
  method Consider(s: Setup, rows: seq<Sample>, n: nat, candidates: map<string, seq<Candidate>>, counts: map<string, nat>)
    returns (candidates': map<string, seq<Candidate>>, counts': map<string, nat>)
    requires ValidBuckets(s.buckets) && n < |rows| && Streamed(s, rows[..n], candidates, counts)
    ensures Streamed(s, rows[..n + 1], candidates', counts')
  {
    var row := rows[n];
    forall b | 0 <= b < |s.buckets|
      ensures Offered(s, rows[..n + 1], b) ==
              if Place(s, row) == Some(b)
              then Offered(s, rows[..n], b) + [MakeCandidate(s, n, row, s.buckets[b].name)]
              else Offered(s, rows[..n], b)
    {
      OfferedNext(s, rows, n, b);
    }
    candidates', counts' := candidates, counts;
    var place := Place(s, row);
    if place == None {
      return;
    }
    var b := place.value;
    var name := s.buckets[b].name;
    counts' := counts[name := counts[name] + 1];
    var kept := Keep(candidates[name], MakeCandidate(s, n, row, name), s.buckets[b].samples, Offered(s, rows[..n], b));
    candidates' := candidates[name := kept];
    forall c | 0 <= c < |s.buckets| && c != b ensures s.buckets[c].name != name {
      assert c < b || b < c;
    }
  }

  ghost function BestOfEach(s: Setup, rows: seq<Sample>): (r: seq<seq<Candidate>>)
    requires ValidBuckets(s.buckets)
    ensures |r| == |s.buckets| && forall b :: 0 <= b < |r| ==> r[b] == Best(s, rows, b)
  {
    seq(|s.buckets|, b requires 0 <= b < |s.buckets| => Best(s, rows, b))
  }

  ghost predicate Short(s: Setup, rows: seq<Sample>, b: int)
  {
    0 <= b < |s.buckets| && |Offered(s, rows, b)| < s.buckets[b].samples
  }

  lemma JoinNext(parts: seq<seq<Candidate>>, b: nat)
    requires b < |parts|
    ensures Join(parts[..b + 1]) == Join(parts[..b]) + parts[b]
  {
    assert parts[..b + 1] == parts[..b] + [parts[b]];
    JoinSnoc(parts[..b], parts[b]);
  }

  /** The second loop: check every bucket's quota and concatenate. */
  method Collect(s: Setup, rows: seq<Sample>, candidates: map<string, seq<Candidate>>, counts: map<string, nat>)
    returns (r: Result<seq<Candidate>, Error>)
    requires ValidBuckets(s.buckets) && Streamed(s, rows, candidates, counts)
    ensures r.Ok? <==> forall b :: !Short(s, rows, b)
    ensures r.Ok? ==> r.value == Join(BestOfEach(s, rows))
    ensures r.Err? ==> r.error.Insufficient? && Short(s, rows, r.error.bucket)
                       && r.error.available == |Offered(s, rows, r.error.bucket)|
                       && forall c :: 0 <= c < r.error.bucket ==> !Short(s, rows, c)
  {
    ghost var best := BestOfEach(s, rows);
    var selected: seq<Candidate> := [];
    var b := 0;
    while b < |s.buckets|
      invariant 0 <= b <= |s.buckets|
      invariant selected == Join(best[..b])
      invariant forall c :: 0 <= c < b ==> !Short(s, rows, c)
    {
      var name := s.buckets[b].name;
      if counts[name] < s.buckets[b].samples {
        assert Short(s, rows, b);
        return Err(Insufficient(b, counts[name]));
      }
      JoinNext(best, b);
      selected := selected + candidates[name];
      b := b + 1;
    }
    assert best[..b] == best;
    r := Ok(selected);
  }

  /** The result without any sorting: every bucket's choice in bucket order, or the first bucket that too few rows fit. */
  ghost predicate Selects(s: Setup, rows: seq<Sample>, r: Result<seq<Candidate>, Error>) {
    if r.Ok? then
      exists parts :: |parts| == |s.buckets| && r.value == Join(parts)
                      && forall b :: 0 <= b < |parts| ==> Chosen(s, rows, s.buckets[b], parts[b])
    else
      && r.error.Insufficient? && r.error.bucket < |s.buckets|
      && r.error.available == |FittingRows(s, rows, s.buckets[r.error.bucket])| < s.buckets[r.error.bucket].samples
      && forall c :: 0 <= c < r.error.bucket ==> |FittingRows(s, rows, s.buckets[c])| >= s.buckets[c].samples
  }

  lemma BestSelects(s: Setup, rows: seq<Sample>)
    requires ValidBuckets(s.buckets)
    ensures forall b :: 0 <= b < |s.buckets| ==>
              |Offered(s, rows, b)| == |FittingRows(s, rows, s.buckets[b])|
              && (!Short(s, rows, b) ==> Chosen(s, rows, s.buckets[b], BestOfEach(s, rows)[b]))
  {
    forall b | 0 <= b < |s.buckets|
      ensures |Offered(s, rows, b)| == |FittingRows(s, rows, s.buckets[b])|
      ensures !Short(s, rows, b) ==> Chosen(s, rows, s.buckets[b], BestOfEach(s, rows)[b])
    {
      BestChosen(s, rows, b);
    }
  }

  /** select_samples, up to what it means. */
  lemma ResultSelects(s: Setup, rows: seq<Sample>, r: Result<seq<Candidate>, Error>)
    requires ValidBuckets(s.buckets)
    requires r.Ok? ==> r.value == Join(BestOfEach(s, rows)) && forall b :: !Short(s, rows, b)
    requires r.Err? ==> r.error.Insufficient? && Short(s, rows, r.error.bucket)
                        && r.error.available == |Offered(s, rows, r.error.bucket)|
                        && forall c :: 0 <= c < r.error.bucket ==> !Short(s, rows, c)
    ensures Selects(s, rows, r)
  {
    BestSelects(s, rows);
    if r.Ok? {
      var parts := BestOfEach(s, rows);
      assert forall b :: 0 <= b < |parts| ==> !Short(s, rows, b);
    }
  }

  /**
   select_samples. Each position of the result is its `index`. The buckets come from ParseBuckets.
   */
  method SelectSamples(s: Setup, rows: seq<Sample>) returns (r: Result<seq<Candidate>, Error>)
    requires ValidBuckets(s.buckets)
    ensures r.Ok? <==> forall b :: !Short(s, rows, b)
    ensures r.Ok? ==> r.value == Join(BestOfEach(s, rows))
    ensures r.Err? ==> r.error.Insufficient? && Short(s, rows, r.error.bucket)
                       && r.error.available == |Offered(s, rows, r.error.bucket)|
                       && forall c :: 0 <= c < r.error.bucket ==> !Short(s, rows, c)
    ensures Selects(s, rows, r)
  {
    var candidates: map<string, seq<Candidate>> := map b | b in Names(s.buckets) :: [];
    var counts: map<string, nat> := map b | b in Names(s.buckets) :: 0;
    var n := 0;
    while n < |rows|
      invariant 0 <= n <= |rows|
      invariant Streamed(s, rows[..n], candidates, counts)
    {
      candidates, counts := Consider(s, rows, n, candidates, counts);
      n := n + 1;
    }
    assert rows[..n] == rows;
    r := Collect(s, rows, candidates, counts);
    ResultSelects(s, rows, r);
  }

  function Names(buckets: seq<Bucket>): set<string> { set i | 0 <= i < |buckets| :: buckets[i].name }

  // ----- the input order does not matter

  ghost predicate UniqueIds(rows: seq<Sample>) {
    forall i, j :: 0 <= i < j < |rows| ==> rows[i].id != rows[j].id
  }

  /** A candidate without its position in the input file. */
  function Erase(c: Candidate): Candidate { c.(sourceIndex := 0) }

  ghost function EraseAll(cs: seq<Candidate>): seq<Candidate> {
    if cs == [] then [] else [Erase(cs[0])] + EraseAll(cs[1..])
  }

  lemma Associative<T>(xs: seq<T>, ys: seq<T>, zs: seq<T>)
    ensures xs + (ys + zs) == xs + ys + zs
  {
  }

  lemma {:induction false} EraseConcat(xs: seq<Candidate>, ys: seq<Candidate>)
    ensures EraseAll(xs + ys) == EraseAll(xs) + EraseAll(ys)
  {
    if xs == [] {
      assert xs + ys == ys;
    } else {
      EraseConcat(xs[1..], ys);
      assert (xs + ys)[1..] == xs[1..] + ys && (xs + ys)[0] == xs[0];
      Associative([Erase(xs[0])], EraseAll(xs[1..]), EraseAll(ys));
    }
  }

  lemma {:induction false} EraseTake(cs: seq<Candidate>, n: nat)
    ensures EraseAll(Take(cs, n)) == Take(EraseAll(cs), n) && |EraseAll(cs)| == |cs|
  {
    if cs != [] {
      EraseTake(cs[1..], if n == 0 then 0 else n - 1);
      if 0 < n < |cs| {
        assert Take(cs, n)[1..] == Take(cs[1..], n - 1);
        assert Take(EraseAll(cs), n) == [Erase(cs[0])] + Take(EraseAll(cs[1..]), n - 1);
      }
    }
  }

  lemma {:induction false} EraseInsert(cs: seq<Candidate>, c: Candidate)
    ensures EraseAll(Insert(CandidateLe, cs, c)) == Insert(CandidateLe, EraseAll(cs), Erase(c))
  {
    if cs != [] {
      EraseInsert(cs[1..], c);
    }
  }

  lemma {:induction false} EraseSort(cs: seq<Candidate>)
    ensures EraseAll(Sort(CandidateLe, cs)) == Sort(CandidateLe, EraseAll(cs))
  {
    if cs != [] {
      var front, last := cs[..|cs| - 1], cs[|cs| - 1];
      EraseSort(front);
      EraseInsert(Sort(CandidateLe, front), last);
      EraseConcat(front, [last]);
      assert cs == front + [last];
      SortSnoc(CandidateLe, EraseAll(front), Erase(last));
    }
  }

  /** What a row adds to bucket `b`, wherever it stands in the input. */
  ghost function Offer(s: Setup, row: Sample, b: nat): seq<Candidate>
    requires b < |s.buckets|
  {
    if Place(s, row) == Some(b) then [MakeCandidate(s, 0, row, s.buckets[b].name)] else []
  }

  ghost function Offers(s: Setup, rows: seq<Sample>, b: nat): seq<Candidate>
    requires b < |s.buckets|
  {
    if rows == [] then [] else Offer(s, rows[0], b) + Offers(s, rows[1..], b)
  }

  lemma {:induction false} OffersConcat(s: Setup, xs: seq<Sample>, ys: seq<Sample>, b: nat)
    requires b < |s.buckets|
    ensures Offers(s, xs + ys, b) == Offers(s, xs, b) + Offers(s, ys, b)
  {
    if xs == [] {
      assert xs + ys == ys;
    } else {
      OffersConcat(s, xs[1..], ys, b);
      assert (xs + ys)[1..] == xs[1..] + ys && (xs + ys)[0] == xs[0];
      Associative(Offer(s, xs[0], b), Offers(s, xs[1..], b), Offers(s, ys, b));
    }
  }

  lemma {:induction false} EraseOffered(s: Setup, rows: seq<Sample>, b: nat)
    requires b < |s.buckets|
    ensures EraseAll(Offered(s, rows, b)) == Offers(s, rows, b)
  {
    if rows != [] {
      var front, last := rows[..|rows| - 1], rows[|rows| - 1];
      EraseOffered(s, front, b);
      OffersConcat(s, front, [last], b);
      assert rows == front + [last];
      assert Offers(s, [last], b) == Offer(s, last, b);
      EraseConcat(Offered(s, front, b), Offered(s, rows, b)[|Offered(s, front, b)|..]);
      assert Offered(s, rows, b) == Offered(s, front, b) + Offered(s, rows, b)[|Offered(s, front, b)|..];
    }
  }

  lemma {:induction false} OffersPermuted(s: Setup, xs: seq<Sample>, ys: seq<Sample>, b: nat)
    requires b < |s.buckets| && multiset(xs) == multiset(ys)
    ensures multiset(Offers(s, xs, b)) == multiset(Offers(s, ys, b))
  {
    if xs != [] {
      var j := PermutationSplit(xs, ys);
      OffersPermuted(s, xs[1..], ys[..j] + ys[j + 1..], b);
      OffersConcat(s, ys[..j], ys[j + 1..], b);
      OffersConcat(s, ys[..j] + [ys[j]], ys[j + 1..], b);
      OffersConcat(s, ys[..j], [ys[j]], b);
      assert Offers(s, [ys[j]], b) == Offer(s, xs[0], b);
    } else {
      SameMembers(xs, ys);
    }
  }

  lemma {:induction false} OffersOf(s: Setup, rows: seq<Sample>, b: nat, c: Candidate)
    requires b < |s.buckets| && c in Offers(s, rows, b)
    ensures c.sample in rows && c == MakeCandidate(s, 0, c.sample, s.buckets[b].name)
  {
    if c !in Offer(s, rows[0], b) {
      OffersOf(s, rows[1..], b, c);
    }
  }

  lemma OffersUntied(s: Setup, rows: seq<Sample>, b: nat)
    requires b < |s.buckets| && UniqueIds(rows)
    ensures TiesEqual(CandidateLe, Sort(CandidateLe, Offers(s, rows, b)))
  {
    var cs := Sort(CandidateLe, Offers(s, rows, b));
    SortPermutation(CandidateLe, Offers(s, rows, b));
    SameMembers(cs, Offers(s, rows, b));
    forall i, j | 0 <= i < |cs| && 0 <= j < |cs| && CandidateLe(cs[i], cs[j]) && CandidateLe(cs[j], cs[i])
      ensures cs[i] == cs[j]
    {
      StrLeTotal(cs[i].key, cs[j].key);
      StrLeTotal(cs[i].sample.id, cs[j].sample.id);
      assert cs[i] in cs && cs[j] in cs;
      OffersOf(s, rows, b, cs[i]);
      OffersOf(s, rows, b, cs[j]);
      var p :| 0 <= p < |rows| && rows[p] == cs[i].sample;
      var q :| 0 <= q < |rows| && rows[q] == cs[j].sample;
      assert rows[p].id == rows[q].id;
      assert p == q;
    }
  }

  lemma BestPermuted(s: Setup, xs: seq<Sample>, ys: seq<Sample>, b: nat)
    requires b < |s.buckets| && s.buckets[b].samples >= 0
    requires UniqueIds(xs) && multiset(xs) == multiset(ys)
    ensures EraseAll(Best(s, xs, b)) == EraseAll(Best(s, ys, b))
    ensures |Offered(s, xs, b)| == |Offered(s, ys, b)|
  {
    EraseOffered(s, xs, b);
    EraseOffered(s, ys, b);
    EraseTake(Offered(s, xs, b), 0);
    EraseTake(Offered(s, ys, b), 0);
    OffersPermuted(s, xs, ys, b);
    SameMembers(Offers(s, xs, b), Offers(s, ys, b));
    CandidateOrder();
    OffersUntied(s, xs, b);
    SortCanonical(CandidateLe, Offers(s, xs, b), Offers(s, ys, b));
    EraseSort(Offered(s, xs, b));
    EraseSort(Offered(s, ys, b));
    EraseTake(Sort(CandidateLe, Offered(s, xs, b)), s.buckets[b].samples);
    EraseTake(Sort(CandidateLe, Offered(s, ys, b)), s.buckets[b].samples);
  }

  lemma {:induction false} JoinErased(ps: seq<seq<Candidate>>, qs: seq<seq<Candidate>>)
    requires |ps| == |qs| && forall i :: 0 <= i < |ps| ==> EraseAll(ps[i]) == EraseAll(qs[i])
    ensures EraseAll(Join(ps)) == EraseAll(Join(qs))
  {
    if ps != [] {
      var n := |ps| - 1;
      JoinErased(ps[..n], qs[..n]);
      EraseConcat(Join(ps[..n]), ps[n]);
      EraseConcat(Join(qs[..n]), qs[n]);
    }
  }

  /**
   With unique ids, any permutation of the input rows selects the same samples in the same output order,
   with the same prompts and keys; only the recorded source positions differ. Success is the same too.
   */
  lemma SelectionPermuted(s: Setup, xs: seq<Sample>, ys: seq<Sample>)
    requires ValidBuckets(s.buckets) && UniqueIds(xs) && multiset(xs) == multiset(ys)
    ensures EraseAll(Join(BestOfEach(s, xs))) == EraseAll(Join(BestOfEach(s, ys)))
    ensures forall b :: Short(s, xs, b) <==> Short(s, ys, b)
  {
    forall b | 0 <= b < |s.buckets|
      ensures EraseAll(BestOfEach(s, xs)[b]) == EraseAll(BestOfEach(s, ys)[b])
      ensures Short(s, xs, b) <==> Short(s, ys, b)
    {
      BestPermuted(s, xs, ys, b);
    }
    JoinErased(BestOfEach(s, xs), BestOfEach(s, ys));
  }
}
