/**
 The variable-tracking task of ruler_vt/pred.py: chains of assignments inserted at sampled positions
 into a text of noise lines. Lines are kept as syntax; drawn names, values and positions are arbitrary.
 Read as a program from top to bottom, the text must bind the answer's variables to the queried value.
 */
module VariableTracking {
  import opened Wrappers
  import opened Sequences

  /** HAYSTACK_SENTENCE, `VAR v = value`, or `VAR v = VAR source`. */
  datatype Line = Noise | Assign(variable: string, value: string) | Copy(variable: string, source: string)

  datatype Error = IndexError | SampleTooLarge

  // ----- the chains

  ghost function ChainOf(vars: seq<string>, value: string): (r: seq<Line>)
    ensures |r| == |vars|
  {
    if vars == [] then []
    else if |vars| == 1 then [Assign(vars[0], value)]
    else ChainOf(vars[..|vars| - 1], value) + [Copy(vars[|vars| - 1], vars[|vars| - 2])]
  }

  /** One iteration of generate_chains: the chain over a slice of the names. */
  method MakeChain(vars: seq<string>, hops: nat, value: string) returns (r: Result<seq<Line>, Error>)
    requires 1 <= |vars| <= hops + 1
    ensures r.Ok? <==> |vars| == hops + 1
    ensures r.Ok? ==> r.value == ChainOf(vars, value)
  {
    var chain := [Assign(vars[0], value)];
    var hop := 0;
    while hop < hops
      invariant 0 <= hop <= hops && hop < |vars|
      invariant chain == ChainOf(vars[..hop + 1], value)
    {
      if hop + 1 >= |vars| {
        return Err(IndexError);
      }
      assert vars[..hop + 2][..hop + 1] == vars[..hop + 1];
      chain := chain + [Copy(vars[hop + 1], vars[hop])];
      hop := hop + 1;
    }
    assert vars[..hop + 1] == vars[..|vars|] || |vars| > hop + 1;
    assert vars[..|vars|] == vars;
    r := Ok(chain);
  }

  /** The names, cut in order into slices of `width`, and the chain over each slice. */
  ghost predicate ChainsOf(names: seq<string>, width: nat, values: nat -> string,
                           vars: seq<seq<string>>, chains: seq<seq<Line>>)
  {
    && |vars| == |chains| && Join(vars) == names
    && (forall k :: 0 <= k < |vars| ==> |vars[k]| == width && chains[k] == ChainOf(vars[k], values(k)))
  }

  /**
   The loop of generate_chains over all names drawn. It succeeds exactly when the names divide evenly
   into chains: redrawing a colliding name leaves a remainder, and the last, short chain raises.
   */
  method GenerateChains(names: seq<string>, hops: nat, values: nat -> string)
    returns (r: Result<(seq<seq<string>>, seq<seq<Line>>), Error>)
    ensures r.Ok? <==> |names| % (hops + 1) == 0
    ensures r.Ok? ==> ChainsOf(names, hops + 1, values, r.value.0, r.value.1)
                      && |r.value.0| * (hops + 1) == |names|
  {
    var width := hops + 1;
    var vars: seq<seq<string>>, chains: seq<seq<Line>> := [], [];
    var start := 0;
    while start < |names|
      invariant 0 <= start <= |names| && start == |vars| * width
      invariant ChainsOf(names[..start], width, values, vars, chains)
    {
      var stop := if start + width <= |names| then start + width else |names|;
      var chain := MakeChain(names[start..stop], hops, values(|vars|));
      if chain.Err? {
        Remainder(|names|, width, |vars|, |names| - start);
        return Err(chain.error);
      }
      NextMultiple(|vars|, width);
      ChainsGrow(names, width, values, vars, chains, start);
      vars, chains := vars + [names[start..stop]], chains + [chain.value];
      start := start + width;
    }
    assert names[..start] == names;
    Remainder(|names|, width, |vars|, 0);
    r := Ok((vars, chains));
  }

  lemma NextMultiple(k: nat, width: nat)
    ensures (k + 1) * width == k * width + width
  {
  }

  lemma ChainsGrow(names: seq<string>, width: nat, values: nat -> string,
                   vars: seq<seq<string>>, chains: seq<seq<Line>>, start: int)
    requires 0 <= start && start + width <= |names| && ChainsOf(names[..start], width, values, vars, chains)
    ensures var next := names[start..start + width];
            ChainsOf(names[..start + width], width, values, vars + [next], chains + [ChainOf(next, values(|vars|))])
  {
    var next := names[start..start + width];
    assert (vars + [next])[..|vars|] == vars;
    assert names[..start + width] == names[..start] + next;
  }

  lemma Remainder(n: int, width: int, k: int, rest: int)
    requires width >= 1 && n == k * width + rest && 0 <= rest < width
    ensures n % width == rest
  {
    var d := n / width - k;
    assert d * width == rest - n % width;
    assert d >= 1 ==> d * width >= width;
    assert d <= -1 ==> d * width <= -width;
  }

  // ----- projections of a text

  /** The variable a line assigns; noise assigns none. */
  function Target(line: Line): Option<string> {
    if line.Noise? then None else Some(line.variable)
  }

  /** The lines of a text whose target is in `keys`, in order. */
  ghost function Project(text: seq<Line>, keys: set<Option<string>>): seq<Line> {
    if text == [] then []
    else if Target(text[0]) in keys then [text[0]] + Project(text[1..], keys)
    else Project(text[1..], keys)
  }

  lemma {:induction false} ProjectConcat(a: seq<Line>, b: seq<Line>, keys: set<Option<string>>)
    ensures Project(a + b, keys) == Project(a, keys) + Project(b, keys)
  {
    if a == [] {
      assert a + b == b;
    } else {
      assert (a + b)[1..] == a[1..] + b;
      ProjectConcat(a[1..], b, keys);
    }
  }

  lemma {:induction false} ProjectNone(text: seq<Line>, keys: set<Option<string>>)
    requires forall i :: 0 <= i < |text| ==> Target(text[i]) !in keys
    ensures Project(text, keys) == []
  {
    if text != [] {
      ProjectNone(text[1..], keys);
    }
  }

  lemma {:induction false} ProjectAll(text: seq<Line>, keys: set<Option<string>>)
    requires forall i :: 0 <= i < |text| ==> Target(text[i]) in keys
    ensures Project(text, keys) == text
  {
    if text != [] {
      ProjectAll(text[1..], keys);
    }
  }

  lemma ProjectInsert(text: seq<Line>, at: int, line: Line, keys: set<Option<string>>)
    requires 0 <= at <= |text|
    ensures Project(text[..at] + [line] + text[at..], keys) ==
            Project(text[..at], keys) + (if Target(line) in keys then [line] else []) + Project(text[at..], keys)
  {
    ProjectConcat(text[..at] + [line], text[at..], keys);
    ProjectConcat(text[..at], [line], keys);
    assert Project([line], keys) == if Target(line) in keys then [line] else [];
  }

  ghost function Keys(vars: seq<string>): set<Option<string>> { set i | 0 <= i < |vars| :: Some(vars[i]) }

  // ----- inserting one chain

  /** What `sorted(random.sample(range(n), k))` can be. */
  ghost predicate Positions(ps: seq<nat>, n: nat) {
    && (forall i :: 0 <= i < |ps| ==> ps[i] < n)
    && (forall i, j :: 0 <= i < j < |ps| ==> ps[i] < ps[j])
  }

  /** None of the lines assigns one of the variables. */
  ghost predicate Foreign(text: seq<Line>, keys: set<Option<string>>) {
    forall i :: 0 <= i < |text| ==> Target(text[i]) !in keys
  }

  /** After `h` insertions everything from `edge` on is still the old text, and the chain so far lies before it. */
  ghost predicate PartWoven(old': seq<Line>, text: seq<Line>, chain: seq<Line>, keys: set<Option<string>>, h: nat, edge: nat)
  {
    && h <= |chain| && h <= edge <= |text| && |text| == |old'| + h
    && text[edge..] == old'[edge - h..]
    && (Foreign(old', keys) ==> Project(text[..edge], keys) == chain[..h])
    && (forall other :: other !! keys ==> Project(text, other) == Project(old', other))
  }

  lemma WeaveOthers(old': seq<Line>, text: seq<Line>, line: Line, at: int, keys: set<Option<string>>)
    requires 0 <= at <= |text| && Target(line) in keys
    requires forall other :: other !! keys ==> Project(text, other) == Project(old', other)
    ensures forall other :: other !! keys ==> Project(text[..at] + [line] + text[at..], other) == Project(old', other)
  {
    forall other | other !! keys ensures Project(text[..at] + [line] + text[at..], other) == Project(old', other) {
      ProjectInsert(text, at, line, other);
      ProjectConcat(text[..at], text[at..], other);
      assert text == text[..at] + text[at..];
    }
  }

  lemma WeaveFront(old': seq<Line>, text: seq<Line>, line: Line, keys: set<Option<string>>, edge: nat, at: nat, skip: nat)
    requires skip <= edge <= at <= |text| && |text| == |old'| + skip && text[edge..] == old'[edge - skip..]
    requires Foreign(old', keys) && Target(line) in keys
    ensures Project(text[..at] + [line], keys) == Project(text[..edge], keys) + [line]
  {
    var gap := text[edge..at];
    assert text[..at] == text[..edge] + gap;
    forall i | 0 <= i < |gap| ensures Target(gap[i]) !in keys {
      assert gap[i] == text[edge..][i] == old'[edge - skip..][i] == old'[edge - skip + i];
    }
    ProjectNone(gap, keys);
    ProjectConcat(text[..edge], gap, keys);
    ProjectConcat(text[..at], [line], keys);
    assert Project([line], keys) == [line];
  }

  lemma WeaveOne(old': seq<Line>, text: seq<Line>, chain: seq<Line>, keys: set<Option<string>>, h: nat, edge: nat, at: nat)
    requires PartWoven(old', text, chain, keys, h, edge) && h < |chain| && edge <= at <= |text|
    requires Target(chain[h]) in keys
    ensures PartWoven(old', text[..at] + [chain[h]] + text[at..], chain, keys, h + 1, at + 1)
  {
    var text' := text[..at] + [chain[h]] + text[at..];
    if Foreign(old', keys) {
      WeaveFront(old', text, chain[h], keys, edge, at, h);
    }
    assert text'[..at + 1] == text[..at] + [chain[h]];
    assert chain[..h + 1] == chain[..h] + [chain[h]];
    assert text'[at + 1..] == text[at..];
    assert text[at..] == text[edge..][at - edge..] == old'[at - h..];
    WeaveOthers(old', text, chain[h], at, keys);
  }

  /** `text.insert(at, line)` */
  ghost function InsertAt(text: seq<Line>, at: nat, line: Line): (r: seq<Line>)
    requires at <= |text|
    ensures |r| == |text| + 1
  {
    text[..at] + [line] + text[at..]
  }

  /** The text after the first `h` lines of the chain are in, at positions that count lines of the text before it. */
  ghost function Woven(text: seq<Line>, chain: seq<Line>, positions: seq<nat>, h: nat): (r: seq<Line>)
    requires h <= |chain| == |positions| && Positions(positions, |text|)
    ensures |r| == |text| + h
  {
    if h == 0 then text
    else InsertAt(Woven(text, chain, positions, h - 1), positions[h - 1] + h - 1, chain[h - 1])
  }

  /** Where the next line can go at the earliest. */
  ghost function Edge(positions: seq<nat>, h: nat): nat
    requires h <= |positions|
  {
    if h == 0 then 0 else positions[h - 1] + h
  }

  lemma {:induction false} WovenPart(text: seq<Line>, chain: seq<Line>, positions: seq<nat>, keys: set<Option<string>>, h: nat)
    requires h <= |chain| == |positions| && Positions(positions, |text|)
    requires forall i :: 0 <= i < |chain| ==> Target(chain[i]) in keys
    ensures PartWoven(text, Woven(text, chain, positions, h), chain, keys, h, Edge(positions, h))
  {
    if h > 0 {
      WovenPart(text, chain, positions, keys, h - 1);
      WeaveOne(text, Woven(text, chain, positions, h - 1), chain, keys, h - 1, Edge(positions, h - 1), positions[h - 1] + h - 1);
    }
  }

  /** Weaving a chain in keeps its order, if no line was of its variables, and the order of all other lines. */
  lemma WovenProjects(text: seq<Line>, chain: seq<Line>, positions: seq<nat>, keys: set<Option<string>>)
    requires |chain| == |positions| && Positions(positions, |text|)
    requires forall i :: 0 <= i < |chain| ==> Target(chain[i]) in keys
    ensures var woven := Woven(text, chain, positions, |chain|);
            && (Foreign(text, keys) ==> Project(woven, keys) == chain)
            && forall other :: other !! keys ==> Project(woven, other) == Project(text, other)
  {
    var woven, edge := Woven(text, chain, positions, |chain|), Edge(positions, |chain|);
    WovenPart(text, chain, positions, keys, |chain|);
    assert chain[..|chain|] == chain;
    ProjectConcat(woven[..edge], woven[edge..], keys);
    assert woven == woven[..edge] + woven[edge..];
    if Foreign(text, keys) {
      ProjectNone(woven[edge..], keys);
    }
  }

  /** The insertion loop for one chain. */
  method InsertChain(text: seq<Line>, chain: seq<Line>, positions: seq<nat>, ghost keys: set<Option<string>>)
    returns (woven: seq<Line>)
    requires |positions| == |chain| && Positions(positions, |text|)
    requires forall i :: 0 <= i < |chain| ==> Target(chain[i]) in keys
    ensures woven == Woven(text, chain, positions, |chain|)
    ensures Foreign(text, keys) ==> Project(woven, keys) == chain
    ensures forall other :: other !! keys ==> Project(woven, other) == Project(text, other)
  {
    woven := text;
    var hop := 0;
    while hop < |chain|
      invariant 0 <= hop <= |chain| && woven == Woven(text, chain, positions, hop)
    {
      var at := positions[hop] + hop;
      woven := woven[..at] + [chain[hop]] + woven[at..];
      hop := hop + 1;
    }
    WovenProjects(text, chain, positions, keys);
  }

  // ----- the whole text

  ghost predicate DisjointKeys(vars: seq<seq<string>>) {
    forall k, l :: 0 <= k < l < |vars| ==> Keys(vars[k]) !! Keys(vars[l])
  }

  ghost predicate ChainTargets(vars: seq<seq<string>>, chains: seq<seq<Line>>) {
    && |vars| == |chains|
    && forall k :: 0 <= k < |vars| ==> forall i :: 0 <= i < |chains[k]| ==> Target(chains[k][i]) in Keys(vars[k])
  }

  /** The text is an order-preserving interleaving of `noises` noise lines and the first `upto` chains. */
  ghost predicate Interleaved(text: seq<Line>, noises: nat, vars: seq<seq<string>>, chains: seq<seq<Line>>, upto: nat)
    requires upto <= |vars| == |chains|
  {
    && Project(text, {None}) == seq(noises, _ => Noise)
    && (forall k :: 0 <= k < upto ==> Project(text, Keys(vars[k])) == chains[k])
    && (forall i :: 0 <= i < |text| ==> OwnedBy(Target(text[i]), vars, upto))
  }

  /** The line is noise or belongs to one of the first chains. */
  ghost predicate OwnedBy(target: Option<string>, vars: seq<seq<string>>, upto: nat)
    requires upto <= |vars|
  {
    target == None || exists k :: 0 <= k < upto && target in Keys(vars[k])
  }

  /** What random.sample draws for the chain it is asked for, sorted; it raises when the text is too short. */
  ghost predicate Samples(sample: (nat, nat, nat) -> seq<nat>) {
    forall c, n, k :: k <= n ==> |sample(c, n, k)| == k && Positions(sample(c, n, k), n)
  }

  lemma {:induction false} ProjectMember(text: seq<Line>, keys: set<Option<string>>, line: Line)
    ensures line in Project(text, keys) <==> line in text && Target(line) in keys
  {
    if text != [] {
      ProjectMember(text[1..], keys, line);
      assert text == [text[0]] + text[1..];
    }
  }

  lemma InterleavedNext(text: seq<Line>, woven: seq<Line>, noises: nat, vars: seq<seq<string>>, chains: seq<seq<Line>>, c: nat)
    requires c < |vars| && ChainTargets(vars, chains) && DisjointKeys(vars)
    requires Interleaved(text, noises, vars, chains, c)
    requires Project(woven, Keys(vars[c])) == chains[c]
    requires forall other :: other !! Keys(vars[c]) ==> Project(woven, other) == Project(text, other)
    ensures Interleaved(woven, noises, vars, chains, c + 1)
  {
    forall i | 0 <= i < |woven| ensures OwnedBy(Target(woven[i]), vars, c + 1) {
      if Target(woven[i]) !in Keys(vars[c]) {
        WasThere(text, woven, Keys(vars[c]), woven[i]);
      }
    }
    assert forall k :: 0 <= k < c ==> Keys(vars[k]) !! Keys(vars[c]);
  }

  /** A line of other keys was in the text before the chain was woven in. */
  lemma WasThere(text: seq<Line>, woven: seq<Line>, keys: set<Option<string>>, line: Line)
    requires line in woven && Target(line) !in keys
    requires forall other :: other !! keys ==> Project(woven, other) == Project(text, other)
    ensures line in text
  {
    assert {Target(line)} !! keys;
    ProjectMember(woven, {Target(line)}, line);
    ProjectMember(text, {Target(line)}, line);
  }

  ghost predicate Fits(noises: nat, chains: seq<seq<Line>>) { forall k :: 0 <= k < |chains| ==> |chains[k]| <= noises }

  /** The text after the first `c` chains are in. */
  ghost function Text(noises: nat, chains: seq<seq<Line>>, sample: (nat, nat, nat) -> seq<nat>, c: nat): (r: seq<Line>)
    requires Samples(sample) && Fits(noises, chains) && c <= |chains|
    ensures |r| >= noises
  {
    if c == 0 then seq(noises, _ => Noise)
    else
      var text, chain := Text(noises, chains, sample, c - 1), chains[c - 1];
      Woven(text, chain, sample(c - 1, |text|, |chain|), |chain|)
  }

  /** For chains over separate variables, whatever the positions: an order-preserving interleaving. */
  lemma {:induction false} TextInterleaved(noises: nat, vars: seq<seq<string>>, chains: seq<seq<Line>>,
                                           sample: (nat, nat, nat) -> seq<nat>, c: nat)
    requires ChainTargets(vars, chains) && DisjointKeys(vars)
    requires Samples(sample) && Fits(noises, chains) && c <= |chains|
    ensures Interleaved(Text(noises, chains, sample, c), noises, vars, chains, c)
  {
    if c == 0 {
      ProjectAll(Text(noises, chains, sample, 0), {None});
    } else {
      var text, keys := Text(noises, chains, sample, c - 1), Keys(vars[c - 1]);
      TextInterleaved(noises, vars, chains, sample, c - 1);
      forall i | 0 <= i < |text| ensures Target(text[i]) !in keys {
        assert OwnedBy(Target(text[i]), vars, c - 1);
      }
      WovenProjects(text, chains[c - 1], sample(c - 1, |text|, |chains[c - 1]|), keys);
      InterleavedNext(text, Text(noises, chains, sample, c), noises, vars, chains, c - 1);
    }
  }

  /** The chain-by-chain insertion of generate_input_output. */
  method Weave(noises: nat, vars: seq<seq<string>>, chains: seq<seq<Line>>, sample: (nat, nat, nat) -> seq<nat>)
    returns (r: Result<seq<Line>, Error>)
    requires ChainTargets(vars, chains) && Samples(sample)
    requires forall k :: 0 <= k < |chains| ==> |chains[k]| == |chains[0]|
    ensures r.Ok? <==> chains == [] || |chains[0]| <= noises
    ensures r.Ok? ==> Fits(noises, chains) && r.value == Text(noises, chains, sample, |chains|)
    ensures r.Ok? && DisjointKeys(vars) ==> Interleaved(r.value, noises, vars, chains, |vars|)
    ensures r.Ok? ==> |r.value| == noises + |chains| * (if chains == [] then 0 else |chains[0]|)
  {
    var sentences: seq<Line> := seq(noises, _ => Noise);
    var c := 0;
    while c < |chains|
      invariant 0 <= c <= |chains|
      invariant |sentences| == noises + c * (if chains == [] then 0 else |chains[0]|)
      invariant c > 0 ==> |chains[0]| <= noises
      invariant Fits(noises, chains) ==> sentences == Text(noises, chains, sample, c)
    {
      var chain := chains[c];
      if |chain| > |sentences| {
        return Err(SampleTooLarge);
      }
      sentences := InsertChain(sentences, chain, sample(c, |sentences|, |chain|), Keys(vars[c]));
      NextMultiple(c, |chains[0]|);
      c := c + 1;
    }
    if DisjointKeys(vars) {
      TextInterleaved(noises, vars, chains, sample, c);
    }
    r := Ok(sentences);
  }

  // ----- reading the text as a program

  /** Run the lines top to bottom; None when a line reads a variable that has no value yet. */
  ghost function Exec(text: seq<Line>, env: map<string, string>): Option<map<string, string>> {
    if text == [] then Some(env)
    else
      match text[0]
      case Noise => Exec(text[1..], env)
      case Assign(v, x) => Exec(text[1..], env[v := x])
      case Copy(v, w) => if w in env then Exec(text[1..], env[v := env[w]]) else None
  }

  lemma {:induction false} ExecConcat(a: seq<Line>, b: seq<Line>, env: map<string, string>)
    ensures Exec(a + b, env) == match Exec(a, env) case None => None case Some(e) => Exec(b, e)
  {
    if a == [] {
      assert a + b == b;
    } else {
      assert (a + b)[1..] == a[1..] + b;
      match a[0] {
        case Noise => ExecConcat(a[1..], b, env);
        case Assign(v, x) => ExecConcat(a[1..], b, env[v := x]);
        case Copy(v, w) =>
          if w in env {
            ExecConcat(a[1..], b, env[v := env[w]]);
          }
      }
    }
  }

  ghost predicate AllBound(vars: seq<string>, value: string, env: Option<map<string, string>>) {
    env.Some? && forall i :: 0 <= i < |vars| ==> vars[i] in env.value && env.value[vars[i]] == value
  }

  lemma ExecCopy(v: string, w: string, env: map<string, string>)
    requires w in env
    ensures Exec([Copy(v, w)], env) == Some(env[v := env[w]])
  {
    assert [Copy(v, w)][1..] == [];
  }

  /** A chain on its own binds all its variables to its value, whatever was bound before. */
  lemma {:induction false} ExecChain(vars: seq<string>, value: string, env: map<string, string>)
    requires vars != []
    ensures AllBound(vars, value, Exec(ChainOf(vars, value), env))
  {
    var n := |vars| - 1;
    if n == 0 {
      assert ChainOf(vars, value)[1..] == [];
    } else {
      ExecChain(vars[..n], value, env);
      assert vars[..n][n - 1] == vars[n - 1];
      var e := Exec(ChainOf(vars[..n], value), env).value;
      ExecConcat(ChainOf(vars[..n], value), [Copy(vars[n], vars[n - 1])], env);
      ExecCopy(vars[n], vars[n - 1], e);
      assert forall i :: 0 <= i < n ==> vars[..n][i] == vars[i];
    }
  }

  /** The line reads and writes within `keys`. */
  ghost predicate Local(line: Line, keys: set<Option<string>>) {
    Target(line) in keys && (line.Copy? ==> Some(line.source) in keys)
  }

  ghost predicate Agree(a: map<string, string>, b: map<string, string>, keys: set<Option<string>>) {
    forall v :: Some(v) in keys ==> (v in a <==> v in b) && (v in a ==> a[v] == b[v])
  }

  /**
   Lines that stay within `keys` behave the same inside the text as on their own, as long as no other
   line touches `keys`, provided the whole text runs.
   */
  lemma {:induction false} ExecProject(text: seq<Line>, keys: set<Option<string>>, env: map<string, string>, own: map<string, string>)
    requires forall i :: 0 <= i < |text| && Target(text[i]) in keys ==> Local(text[i], keys)
    requires None !in keys && Agree(env, own, keys)
    requires Exec(text, env).Some?
    ensures Exec(Project(text, keys), own).Some?
    ensures Agree(Exec(text, env).value, Exec(Project(text, keys), own).value, keys)
  {
    if text != [] {
      var line := text[0];
      assert Target(line) in keys ==> Local(line, keys);
      if Target(line) in keys {
        assert Project(text, keys)[1..] == Project(text[1..], keys);
      }
      match line {
        case Noise => ExecProject(text[1..], keys, env, own);
        case Assign(v, x) =>
          ExecProject(text[1..], keys, env[v := x], if Target(line) in keys then own[v := x] else own);
        case Copy(v, w) =>
          ExecProject(text[1..], keys, env[v := env[w]], if Target(line) in keys then own[v := own[w]] else own);
      }
    }
  }

  /** Every line is noise or local to one of the key sets. */
  ghost predicate AllLocal(text: seq<Line>, sets: seq<set<Option<string>>>) {
    forall i :: 0 <= i < |text| ==> text[i].Noise? || exists k :: 0 <= k < |sets| && Local(text[i], sets[k])
  }

  ghost predicate Separate(sets: seq<set<Option<string>>>) {
    && (forall k :: 0 <= k < |sets| ==> None !in sets[k])
    && (forall k, l :: 0 <= k < |sets| && 0 <= l < |sets| && k != l ==> sets[k] !! sets[l])
  }

  ghost predicate EachRuns(text: seq<Line>, sets: seq<set<Option<string>>>, env: map<string, string>) {
    forall k :: 0 <= k < |sets| ==> Exec(Project(text, sets[k]), env).Some?
  }

  ghost function StepEnv(line: Line, env: map<string, string>): map<string, string>
    requires line.Copy? ==> line.source in env
  {
    match line
    case Noise => env
    case Assign(v, x) => env[v := x]
    case Copy(v, w) => env[v := env[w]]
  }

  lemma ProjectLocal(text: seq<Line>, sets: seq<set<Option<string>>>, k: nat)
    requires AllLocal(text, sets) && Separate(sets) && k < |sets|
    ensures forall i :: 0 <= i < |text| && Target(text[i]) in sets[k] ==> Local(text[i], sets[k])
    ensures forall i :: 0 <= i < |Project(text, sets[k])| ==> Local(Project(text, sets[k])[i], sets[k])
  {
    forall i | 0 <= i < |text| && Target(text[i]) in sets[k] ensures Local(text[i], sets[k]) {
      var l :| 0 <= l < |sets| && Local(text[i], sets[l]);
      assert l == k;
    }
    var p := Project(text, sets[k]);
    forall i | 0 <= i < |p| ensures Local(p[i], sets[k]) {
      ProjectMember(text, sets[k], p[i]);
      var j :| 0 <= j < |text| && text[j] == p[i];
    }
  }

  /** The first line of the text runs, and each projection of the rest still does. */
  lemma FirstLineRuns(text: seq<Line>, sets: seq<set<Option<string>>>, env: map<string, string>)
    requires text != [] && AllLocal(text, sets) && Separate(sets) && EachRuns(text, sets, env)
    ensures text[0].Copy? ==> text[0].source in env
    ensures EachRuns(text[1..], sets, StepEnv(text[0], env))
  {
    var line, rest := text[0], text[1..];
    if !line.Noise? {
      var k :| 0 <= k < |sets| && Local(line, sets[k]);
      assert Project(text, sets[k]) == [line] + Project(rest, sets[k]);
      var env' := StepEnv(line, env);
      forall l | 0 <= l < |sets| ensures Exec(Project(rest, sets[l]), env').Some? {
        if l == k {
          assert Project(text, sets[k])[1..] == Project(rest, sets[k]);
        } else {
          assert Project(text, sets[l]) == Project(rest, sets[l]);
          ProjectLocal(text, sets, l);
          ProjectAll(Project(rest, sets[l]), sets[l]);
          ExecProject(Project(rest, sets[l]), sets[l], env, env');
        }
      }
    } else {
      forall l | 0 <= l < |sets| ensures Project(text, sets[l]) == Project(rest, sets[l]) {
      }
    }
  }

  /** A text of separate groups runs if each group runs on its own. */
  lemma {:induction false} TextRuns(text: seq<Line>, sets: seq<set<Option<string>>>, env: map<string, string>)
    requires AllLocal(text, sets) && Separate(sets) && EachRuns(text, sets, env)
    ensures Exec(text, env).Some?
  {
    if text != [] {
      FirstLineRuns(text, sets, env);
      TextRuns(text[1..], sets, StepEnv(text[0], env));
    }
  }

  lemma {:induction false} ExecKeys(text: seq<Line>, env: map<string, string>, v: string)
    requires Exec(text, env).Some? && v in Exec(text, env).value
    ensures v in env || exists i :: 0 <= i < |text| && Target(text[i]) == Some(v)
  {
    if text != [] && Target(text[0]) != Some(v) {
      var env' := StepEnv(text[0], env);
      ExecKeys(text[1..], env', v);
      if i :| 0 <= i < |text| - 1 && Target(text[1..][i]) == Some(v) {
        assert Target(text[i + 1]) == Some(v);
      }
    }
  }

  lemma {:induction false} ChainLocal(vars: seq<string>, value: string)
    ensures forall i :: 0 <= i < |ChainOf(vars, value)| ==> Local(ChainOf(vars, value)[i], Keys(vars))
  {
    if vars == [] {
    } else if |vars| == 1 {
      assert Some(vars[0]) in Keys(vars);
    } else {
      var n := |vars| - 1;
      ChainLocal(vars[..n], value);
      assert vars[..n][n - 1] == vars[n - 1];
      assert Some(vars[n]) in Keys(vars) && Some(vars[n - 1]) in Keys(vars);
      assert Keys(vars[..n]) <= Keys(vars) by {
        forall i | 0 <= i < n ensures Some(vars[..n][i]) in Keys(vars) {
          assert Some(vars[i]) in Keys(vars);
        }
      }
    }
  }

  // ----- the task

  /** The chains are chains over separate, nonempty variable lists. */
  ghost predicate Task(vars: seq<seq<string>>, chains: seq<seq<Line>>, values: nat -> string) {
    && |vars| == |chains| && DisjointKeys(vars)
    && forall k :: 0 <= k < |vars| ==> vars[k] != [] && chains[k] == ChainOf(vars[k], values(k))
  }

  ghost function KeySets(vars: seq<seq<string>>): (r: seq<set<Option<string>>>)
    ensures |r| == |vars| && forall k :: 0 <= k < |vars| ==> r[k] == Keys(vars[k])
  {
    seq(|vars|, k requires 0 <= k < |vars| => Keys(vars[k]))
  }

  lemma KeySetsSeparate(vars: seq<seq<string>>)
    requires DisjointKeys(vars)
    ensures Separate(KeySets(vars))
  {
    forall k, l | 0 <= k < |vars| && 0 <= l < |vars| && k != l ensures KeySets(vars)[k] !! KeySets(vars)[l] {
      assert k < l ==> Keys(vars[k]) !! Keys(vars[l]);
      assert l < k ==> Keys(vars[l]) !! Keys(vars[k]);
    }
  }

  lemma InterleavedLocal(text: seq<Line>, noises: nat, vars: seq<seq<string>>, chains: seq<seq<Line>>, values: nat -> string)
    requires Task(vars, chains, values) && Interleaved(text, noises, vars, chains, |vars|)
    ensures AllLocal(text, KeySets(vars))
  {
    forall i | 0 <= i < |text| ensures text[i].Noise? || exists k :: 0 <= k < |vars| && Local(text[i], KeySets(vars)[k]) {
      assert OwnedBy(Target(text[i]), vars, |vars|);
      if !text[i].Noise? {
        var k :| 0 <= k < |vars| && Target(text[i]) in Keys(vars[k]);
        ProjectMember(text, Keys(vars[k]), text[i]);
        assert text[i] in chains[k];
        ChainLocal(vars[k], values(k));
        assert Local(text[i], KeySets(vars)[k]);
      }
    }
  }

  /** What the text binds: every chain's variables to that chain's value, and nothing else. */
  ghost predicate Computes(env: map<string, string>, vars: seq<seq<string>>, values: nat -> string) {
    && (forall k, v :: 0 <= k < |vars| && v in vars[k] ==> v in env && env[v] == values(k))
    && (forall v :: v in env ==> exists k :: 0 <= k < |vars| && v in vars[k])
  }

  lemma VariableKey(vars: seq<string>, v: string)
    ensures Some(v) in Keys(vars) <==> v in vars
  {
  }

  /** For every interleaving: the text runs without reading an unset variable, and computes every chain's value. */
  lemma TextComputes(text: seq<Line>, noises: nat, vars: seq<seq<string>>, chains: seq<seq<Line>>, values: nat -> string)
    requires Task(vars, chains, values) && Interleaved(text, noises, vars, chains, |vars|)
    ensures Exec(text, map[]).Some? && Computes(Exec(text, map[]).value, vars, values)
  {
    var sets := KeySets(vars);
    KeySetsSeparate(vars);
    InterleavedLocal(text, noises, vars, chains, values);
    forall k | 0 <= k < |vars| ensures Exec(Project(text, sets[k]), map[]).Some? {
      ExecChain(vars[k], values(k), map[]);
    }
    TextRuns(text, sets, map[]);
    var env := Exec(text, map[]).value;
    forall k, v | 0 <= k < |vars| && v in vars[k] ensures v in env && env[v] == values(k) {
      ProjectLocal(text, sets, k);
      ExecProject(text, sets[k], map[], map[]);
      ExecChain(vars[k], values(k), map[]);
      VariableKey(vars[k], v);
    }
    forall v | v in env ensures exists k :: 0 <= k < |vars| && v in vars[k] {
      ExecKeys(text, map[], v);
      var i :| 0 <= i < |text| && Target(text[i]) == Some(v);
      assert OwnedBy(Target(text[i]), vars, |vars|);
      var k :| 0 <= k < |vars| && Some(v) in Keys(vars[k]);
      VariableKey(vars[k], v);
    }
  }

  /** The answer list is exactly the set of variables with the queried value iff no other chain drew that value. */
  lemma AnswerExact(env: map<string, string>, vars: seq<seq<string>>, values: nat -> string)
    requires vars != [] && Computes(env, vars, values) && forall k :: 0 <= k < |vars| ==> vars[k] != []
    requires DisjointKeys(vars)
    ensures (forall v :: v in vars[0] <==> v in env && env[v] == values(0))
            <==> (forall k :: 0 < k < |vars| ==> values(k) != values(0))
  {
    if k :| 0 < k < |vars| && values(k) == values(0) {
      var v := vars[k][0];
      assert v in vars[k];
      VariableKey(vars[k], v);
      VariableKey(vars[0], v);
      assert Keys(vars[0]) !! Keys(vars[k]);
      assert v !in vars[0] && env[v] == values(0);
    }
  }

  lemma {:induction false} JoinIndex(vars: seq<seq<string>>, k: nat, i: nat)
    requires k < |vars| && i < |vars[k]|
    ensures 0 <= |Join(vars[..k])| + i < |Join(vars)| && Join(vars)[|Join(vars[..k])| + i] == vars[k][i]
    decreases |vars|
  {
    var n := |vars| - 1;
    if k < n {
      JoinIndex(vars[..n], k, i);
      assert vars[..n][..k] == vars[..k];
    } else {
      assert vars[..n] == vars[..k];
    }
  }

  lemma {:induction false} JoinPrefix(vars: seq<seq<string>>, k: nat, l: nat)
    requires k < l <= |vars|
    ensures |Join(vars[..k])| + |vars[k]| <= |Join(vars[..l])|
  {
    assert vars[..l][..l - 1] == vars[..l - 1];
    if k < l - 1 {
      JoinPrefix(vars, k, l - 1);
    }
  }

  ghost predicate DistinctNames(names: seq<string>) { forall i, j :: 0 <= i < j < |names| ==> names[i] != names[j] }

  lemma DistinctSlices(names: seq<string>, vars: seq<seq<string>>)
    requires Join(vars) == names && DistinctNames(names)
    ensures DisjointKeys(vars)
  {
    forall k, l | 0 <= k < l < |vars| ensures Keys(vars[k]) !! Keys(vars[l]) {
      forall i, j | 0 <= i < |vars[k]| && 0 <= j < |vars[l]| ensures vars[k][i] != vars[l][j] {
        JoinIndex(vars, k, i);
        JoinIndex(vars, l, j);
        JoinPrefix(vars, k, l);
      }
    }
  }

  /** A finished prompt: an interleaving of noise and the chains over all names, which computes the answer. */
  ghost predicate Answered(names: seq<string>, hops: nat, values: nat -> string, noises: nat,
                           text: seq<Line>, answers: seq<string>, value: string)
  {
    && hops + 1 <= |names| && answers == names[..hops + 1] && value == values(0)
    && |text| == noises + |names|
    && (exists vars, chains :: ChainsOf(names, hops + 1, values, vars, chains)
                               && Interleaved(text, noises, vars, chains, |vars|))
    && AllBound(answers, value, Exec(text, map[]))
  }

  lemma Answer(names: seq<string>, hops: nat, values: nat -> string, noises: nat,
               vars: seq<seq<string>>, chains: seq<seq<Line>>, text: seq<Line>)
    requires vars != [] && ChainsOf(names, hops + 1, values, vars, chains) && DisjointKeys(vars)
    requires Interleaved(text, noises, vars, chains, |vars|) && |text| == noises + |names|
    ensures chains[0][0].Assign? && Answered(names, hops, values, noises, text, vars[0], chains[0][0].value)
  {
    TextComputes(text, noises, vars, chains, values);
    FirstSlice(vars);
    FirstLine(vars[0], values(0));
    forall i | 0 <= i < |vars[0]| ensures vars[0][i] in Exec(text, map[]).value && Exec(text, map[]).value[vars[0][i]] == values(0) {
      assert vars[0][i] in vars[0];
    }
  }

  // ----- the prompt as a function of the names

  /** The names, cut from the end into slices of `width`; a remainder at the front is dropped. */
  ghost function Slices(names: seq<string>, width: nat): (r: seq<seq<string>>)
    requires width >= 1
    ensures forall k :: 0 <= k < |r| ==> |r[k]| == width
    decreases |names|
  {
    if |names| < width then [] else Slices(names[..|names| - width], width) + [names[|names| - width..]]
  }

  ghost function ChainsFor(vars: seq<seq<string>>, values: nat -> string): (chains: seq<seq<Line>>)
    ensures |chains| == |vars| && forall k :: 0 <= k < |vars| ==> chains[k] == ChainOf(vars[k], values(k))
  {
    seq(|vars|, k requires 0 <= k < |vars| => ChainOf(vars[k], values(k)))
  }

  lemma {:induction false} SlicesOfJoin(vars: seq<seq<string>>, width: nat)
    requires width >= 1 && forall k :: 0 <= k < |vars| ==> |vars[k]| == width
    ensures Slices(Join(vars), width) == vars
  {
    if vars != [] {
      var front, last, names := vars[..|vars| - 1], vars[|vars| - 1], Join(vars);
      SlicesOfJoin(front, width);
      assert names[..|names| - width] == Join(front) && names[|names| - width..] == last;
      assert vars == front + [last];
    }
  }

  /** The chains of generate_chains are those of the names' slices. */
  lemma ChainsAreOfSlices(names: seq<string>, width: nat, values: nat -> string, vars: seq<seq<string>>, chains: seq<seq<Line>>)
    requires width >= 1 && ChainsOf(names, width, values, vars, chains)
    ensures vars == Slices(names, width) && chains == ChainsFor(vars, values)
  {
    SlicesOfJoin(vars, width);
  }

  /** The lines of the prompt. */
  ghost function Prompt(names: seq<string>, width: nat, values: nat -> string, noises: nat,
                        sample: (nat, nat, nat) -> seq<nat>): seq<Line>
    requires Samples(sample) && 1 <= width <= noises
  {
    var chains := ChainsFor(Slices(names, width), values);
    Text(noises, chains, sample, |chains|)
  }

  lemma ChainsOfTargets(names: seq<string>, width: nat, values: nat -> string, vars: seq<seq<string>>, chains: seq<seq<Line>>)
    requires ChainsOf(names, width, values, vars, chains)
    ensures ChainTargets(vars, chains)
  {
    forall k | 0 <= k < |vars| ensures forall i :: 0 <= i < |chains[k]| ==> Target(chains[k][i]) in Keys(vars[k]) {
      ChainLocal(vars[k], values(k));
    }
  }

  lemma PromptFacts(names: seq<string>, hops: nat, values: nat -> string, noises: nat, sample: (nat, nat, nat) -> seq<nat>,
                    vars: seq<seq<string>>, chains: seq<seq<Line>>)
    requires vars != [] && ChainsOf(names, hops + 1, values, vars, chains)
    requires Samples(sample) && Fits(noises, chains) && hops + 1 <= noises
    ensures hops + 1 <= |names| && vars[0] == names[..hops + 1] && chains[0] != [] && chains[0][0] == Assign(vars[0][0], values(0))
    ensures Text(noises, chains, sample, |chains|) == Prompt(names, hops + 1, values, noises, sample)
  {
    FirstSlice(vars);
    FirstLine(vars[0], values(0));
    ChainsAreOfSlices(names, hops + 1, values, vars, chains);
  }

  lemma DistinctAnswered(names: seq<string>, hops: nat, values: nat -> string, noises: nat,
                         vars: seq<seq<string>>, chains: seq<seq<Line>>, text: seq<Line>)
    requires vars != [] && ChainsOf(names, hops + 1, values, vars, chains) && DistinctNames(names)
    requires |text| == noises + |names|
    requires DisjointKeys(vars) ==> Interleaved(text, noises, vars, chains, |vars|)
    ensures Answered(names, hops, values, noises, text, names[..hops + 1], values(0))
  {
    DistinctSlices(names, vars);
    Answer(names, hops, values, noises, vars, chains, text);
    FirstSlice(vars);
    FirstLine(vars[0], values(0));
  }

  /**
   generate_input_output, up to the prompt text: the lines, the answer variables and the queried value. It
   raises exactly when the names do not divide into chains, there is no chain, or the noise is shorter than a
   chain. Otherwise, if the names are distinct, the text interleaves noise and chains in order, and run as a
   program it binds each answer variable to the value asked for. Module VariableCollisions has the other case.
   */
  method GenerateInputOutput(names: seq<string>, hops: nat, values: nat -> string, noises: nat,
                             sample: (nat, nat, nat) -> seq<nat>)
    returns (r: Result<(seq<Line>, seq<string>, string), Error>)
    requires Samples(sample)
    ensures r.Ok? <==> names != [] && |names| % (hops + 1) == 0 && hops + 1 <= noises
    ensures r.Ok? ==> |r.value.0| == noises + |names| && r.value.1 == names[..hops + 1] && r.value.2 == values(0)
    ensures r.Ok? ==> r.value.0 == Prompt(names, hops + 1, values, noises, sample)
    ensures r.Ok? && DistinctNames(names) ==> Answered(names, hops, values, noises, r.value.0, r.value.1, r.value.2)
  {
    var made := GenerateChains(names, hops, values);
    if made.Err? {
      return Err(made.error);
    }
    var (vars, chains) := made.value;
    if chains == [] {
      return Err(IndexError);
    }
    assert names != [];
    ChainsOfTargets(names, hops + 1, values, vars, chains);
    var woven := Weave(noises, vars, chains, sample);
    if woven.Err? {
      return Err(woven.error);
    }
    PromptFacts(names, hops, values, noises, sample, vars, chains);
    if DistinctNames(names) {
      DistinctAnswered(names, hops, values, noises, vars, chains, woven.value);
    }
    r := Ok((woven.value, vars[0], chains[0][0].value));
  }

  lemma {:induction false} FirstSlice(vars: seq<seq<string>>)
    requires vars != []
    ensures |vars[0]| <= |Join(vars)| && Join(vars)[..|vars[0]|] == vars[0]
  {
    var n := |vars| - 1;
    if n > 0 {
      FirstSlice(vars[..n]);
    } else {
      assert Join(vars[..0]) == [];
      assert Join(vars) == vars[0];
    }
  }

  lemma {:induction false} FirstLine(vars: seq<string>, value: string)
    requires vars != []
    ensures ChainOf(vars, value)[0] == Assign(vars[0], value)
  {
    if |vars| > 1 {
      FirstLine(vars[..|vars| - 1], value);
    }
  }
}
