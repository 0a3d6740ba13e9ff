/**
 Variable tracking when drawn names or values collide. The redraw loop of generate_chains stops at enough distinct
 names, but keeps the repeated ones; when the names still divide into chains, a later chain can write a variable of
 the answer. Here is exactly when the answer can be relied on, and when it is complete.
 */
module VariableCollisions {
  import opened Wrappers
  import opened Sequences
  import opened VariableTracking

  // ----- the draw

  ghost function Members(names: seq<string>): set<string> { set i | 0 <= i < |names| :: names[i] }

  function Draws(draw: nat -> string, n: nat): (names: seq<string>)
    ensures |names| == n && forall i :: 0 <= i < n ==> names[i] == draw(i)
  {
    seq(n, i requires 0 <= i => draw(i))
  }

  /** Before its last draw the loop had too few different names, however often it looked. */
  ghost predicate Wanting(names: seq<string>, total: nat) {
    forall n :: total <= n < |names| ==> |Members(names[..n])| < total
  }

  /** What the redraw loop can leave: it draws `total` names, and more as long as fewer than `total` are different. */
  ghost predicate Drawn(names: seq<string>, total: nat) {
    total <= |names| && |Members(names)| >= total && Wanting(names, total)
  }

  /** The names of generate_chains, if enough different ones are ever drawn. */
  method DrawNames(draw: nat -> string, total: nat, ghost enough: nat) returns (names: seq<string>)
    requires |Members(Draws(draw, enough))| >= total
    ensures Drawn(names, total) && names == Draws(draw, |names|)
  {
    names := Draws(draw, total);
    var distinct := set i | 0 <= i < |names| :: names[i];
    while |distinct| < total
      invariant |names| >= total && distinct == Members(names)
      invariant names == Draws(draw, |names|) && Wanting(names, total)
      decreases enough - |names|
    {
      Shorter(names, Draws(draw, enough));
      OneMore(names, draw(|names|), total);
      DrawMore(draw, |names|);
      distinct := distinct + {draw(|names|)};
      names := names + [draw(|names|)];
    }
  }

  lemma DrawMore(draw: nat -> string, n: nat)
    ensures Draws(draw, n + 1) == Draws(draw, n) + [draw(n)]
  {
  }

  lemma OneMore(names: seq<string>, name: string, total: nat)
    requires |Members(names)| < total && Wanting(names, total)
    ensures Members(names + [name]) == Members(names) + {name} && Wanting(names + [name], total)
  {
    var next := names + [name];
    assert next[|names|] == name && forall i :: 0 <= i < |names| ==> next[i] == names[i];
    forall n | total <= n < |names| + 1 ensures |Members(next[..n])| < total {
      assert next[..n] == if n < |names| then names[..n] else names;
    }
  }

  /** A draw that falls short of another is a proper prefix of it. */
  lemma Shorter(names: seq<string>, all: seq<string>)
    requires |Members(names)| < |Members(all)|
    requires forall i :: 0 <= i < |names| && i < |all| ==> names[i] == all[i]
    ensures |names| < |all|
  {
    if |names| >= |all| {
      assert Members(all) <= Members(names) by {
        forall x | x in Members(all) ensures x in Members(names) {
          var i :| 0 <= i < |all| && all[i] == x;
          assert names[i] == x;
        }
      }
      SubsetSize(Members(all), Members(names));
    }
  }

  /** Without a redraw the names are different. */
  lemma {:induction false} NoRedraw(names: seq<string>)
    requires |Members(names)| >= |names|
    ensures DistinctNames(names)
  {
    if names != [] {
      var front, last := names[..|names| - 1], names[|names| - 1];
      assert Members(names) == Members(front) + {last} by {
        forall x | x in Members(names) ensures x in Members(front) + {last} {
          var i :| 0 <= i < |names| && names[i] == x;
          assert i < |front| ==> front[i] == x;
        }
        assert forall i :: 0 <= i < |front| ==> names[i] == front[i];
        assert names[|names| - 1] == last;
      }
      MembersAtMost(front);
      NoRedraw(front);
      assert Members(front) + {last} != Members(front);
      forall i | 0 <= i < |front| ensures names[i] != last {
        assert front[i] in Members(front);
      }
    }
  }

  lemma {:induction false} MembersAtMost(names: seq<string>)
    ensures |Members(names)| <= |names|
  {
    if names != [] {
      var front, last := names[..|names| - 1], names[|names| - 1];
      MembersAtMost(front);
      assert Members(names) <= Members(front) + {last} by {
        forall x | x in Members(names) ensures x in Members(front) + {last} {
          var i :| 0 <= i < |names| && names[i] == x;
          assert i < |front| ==> front[i] == x;
        }
      }
      SubsetSize(Members(names), Members(front) + {last});
    }
  }

  // ----- texts that feed themselves

  /** From `o` on, every copy reads a variable that some line from `o` on has written before it. */
  ghost predicate FedFrom(text: seq<Line>, o: nat) {
    forall j :: o <= j < |text| && text[j].Copy? ==> WrittenBefore(text, o, j, text[j].source)
  }

  ghost predicate WrittenBefore(text: seq<Line>, o: nat, j: nat, v: string) {
    exists i :: o <= i < j && i < |text| && Target(text[i]) == Some(v)
  }

  /** From `o` on, no line assigns the banned value. */
  ghost predicate Avoids(text: seq<Line>, o: nat, banned: Option<string>) {
    forall j :: o <= j < |text| && text[j].Assign? ==> Some(text[j].value) != banned
  }

  ghost predicate Has(text: seq<Line>, o: nat, line: Line) { exists j :: o <= j < |text| && text[j] == line }

  lemma InsertedAt(text: seq<Line>, at: nat, line: Line)
    requires at <= |text|
    ensures var t := InsertAt(text, at, line);
            t[at] == line && t[..at] == text[..at] && forall i :: 0 <= i < |text| ==> t[if i < at then i else i + 1] == text[i]
  {
  }

  lemma InsertKeepsWritten(text: seq<Line>, o: nat, at: nat, line: Line, j: nat, v: string)
    requires o <= at <= |text| && j <= |text| && WrittenBefore(text, o, j, v)
    ensures WrittenBefore(InsertAt(text, at, line), o, if j <= at then j else j + 1, v)
  {
    InsertedAt(text, at, line);
    var i :| o <= i < j && i < |text| && Target(text[i]) == Some(v);
    var t := InsertAt(text, at, line);
    assert Target(t[if i < at then i else i + 1]) == Some(v);
  }

  lemma FedInsert(text: seq<Line>, o: nat, at: nat, line: Line)
    requires o <= at <= |text| && FedFrom(text, o)
    requires line.Copy? ==> WrittenBefore(text, o, at, line.source)
    ensures FedFrom(InsertAt(text, at, line), o)
  {
    var t := InsertAt(text, at, line);
    InsertedAt(text, at, line);
    forall j | o <= j < |t| && t[j].Copy? ensures WrittenBefore(t, o, j, t[j].source) {
      if j == at {
        InsertKeepsWritten(text, o, at, line, at, line.source);
      } else {
        var i := if j < at then j else j - 1;
        assert t[j] == text[i];
        InsertKeepsWritten(text, o, at, line, i, text[i].source);
        var k :| o <= k < (if i <= at then i else i + 1) && k < |t| && Target(t[k]) == Some(text[i].source);
      }
    }
  }

  lemma AvoidsInsert(text: seq<Line>, o: nat, at: nat, line: Line, banned: Option<string>)
    requires o <= at <= |text| && Avoids(text, o, banned) && (line.Assign? ==> Some(line.value) != banned)
    ensures Avoids(InsertAt(text, at, line), o, banned)
  {
    var t := InsertAt(text, at, line);
    InsertedAt(text, at, line);
    forall j | o <= j < |t| && t[j].Assign? ensures Some(t[j].value) != banned {
      assert j != at ==> t[j] == text[if j < at then j else j - 1];
    }
  }

  lemma HasInsert(text: seq<Line>, o: nat, at: nat, line: Line, kept: Line)
    requires o <= at <= |text| && (Has(text, o, kept) || line == kept)
    ensures Has(InsertAt(text, at, line), o, kept)
  {
    var t := InsertAt(text, at, line);
    InsertedAt(text, at, line);
    if line == kept {
      assert t[at] == kept;
    } else {
      var j :| o <= j < |text| && text[j] == kept;
      assert t[if j < at then j else j + 1] == kept;
    }
  }

  // ----- running them

  lemma ExecNext(text: seq<Line>, n: nat)
    requires n < |text|
    ensures Exec(text[..n + 1], map[]) ==
            match Exec(text[..n], map[]) case None => None case Some(e) => Exec([text[n]], e)
  {
    assert text[..n + 1] == text[..n] + [text[n]];
    ExecConcat(text[..n], [text[n]], map[]);
  }

  lemma ExecOne(line: Line, env: map<string, string>)
    ensures Exec([line], env) ==
            match line
            case Noise => Some(env)
            case Assign(v, x) => Some(env[v := x])
            case Copy(v, w) => if w in env then Some(env[v := env[w]]) else None
  {
    assert [line][1..] == [];
  }

  /** What was written from `o` on has a value, and never the banned one. */
  ghost predicate Clean(text: seq<Line>, o: nat, n: nat, env: map<string, string>, banned: Option<string>) {
    forall v :: WrittenBefore(text, o, n, v) ==> v in env && Some(env[v]) != banned
  }

  lemma {:induction false} FedRuns(text: seq<Line>, o: nat, n: nat, banned: Option<string>)
    requires o <= n <= |text| && FedFrom(text, o) && Avoids(text, o, banned) && Exec(text[..o], map[]).Some?
    ensures Exec(text[..n], map[]).Some? && Clean(text, o, n, Exec(text[..n], map[]).value, banned)
  {
    if n > o {
      FedRuns(text, o, n - 1, banned);
      ExecNext(text, n - 1);
      ExecOne(text[n - 1], Exec(text[..n - 1], map[]).value);
      CleanNext(text, o, n - 1, Exec(text[..n - 1], map[]).value, banned);
    }
  }

  lemma CleanNext(text: seq<Line>, o: nat, n: nat, env: map<string, string>, banned: Option<string>)
    requires o <= n < |text| && FedFrom(text, o) && Avoids(text, o, banned) && Clean(text, o, n, env, banned)
    ensures Exec([text[n]], env).Some? && Clean(text, o, n + 1, Exec([text[n]], env).value, banned)
  {
    ExecOne(text[n], env);
    if text[n].Copy? {
      assert WrittenBefore(text, o, n, text[n].source);
    }
    var after := Exec([text[n]], env).value;
    forall v | WrittenBefore(text, o, n + 1, v) ensures v in after && Some(after[v]) != banned {
      if Target(text[n]) != Some(v) {
        assert WrittenBefore(text, o, n, v);
      }
    }
  }

  // ----- weaving a chain into such a text

  lemma {:induction false} ChainLine(vars: seq<string>, value: string, i: nat)
    requires i < |vars|
    ensures ChainOf(vars, value)[i] == if i == 0 then Assign(vars[0], value) else Copy(vars[i], vars[i - 1])
  {
    var n := |vars| - 1;
    if 0 < n && i < n {
      ChainLine(vars[..n], value, i);
    }
  }

  /** Positions from `o` on. */
  ghost predicate Behind(positions: seq<nat>, o: nat) { forall i :: 0 <= i < |positions| ==> o <= positions[i] }

  /** The front is untouched, the text still feeds itself, and the last line of the chain stands before the edge. */
  ghost predicate FedSoFar(text: seq<Line>, woven: seq<Line>, chain: seq<Line>, edge: nat, h: nat, o: nat, banned: Option<string>)
    requires h <= |chain|
  {
    && o <= |text| <= |woven| && woven[..o] == text[..o]
    && FedFrom(woven, o) && Avoids(woven, o, banned)
    && (h > 0 ==> o < edge <= |woven| && woven[edge - 1] == chain[h - 1])
    && forall i :: 0 <= i < h ==> Has(woven, o, chain[i])
  }

  lemma WeaveFed(text: seq<Line>, woven: seq<Line>, vars: seq<string>, value: string, edge: nat, h: nat, o: nat, at: nat,
                 banned: Option<string>)
    requires h < |vars| && FedSoFar(text, woven, ChainOf(vars, value), edge, h, o, banned)
    requires o <= at <= |woven| && (h > 0 ==> edge <= at) && Some(value) != banned
    ensures FedSoFar(text, InsertAt(woven, at, ChainOf(vars, value)[h]), ChainOf(vars, value), at + 1, h + 1, o, banned)
  {
    var chain := ChainOf(vars, value);
    var line, t := chain[h], InsertAt(woven, at, chain[h]);
    SourceWritten(text, woven, vars, value, edge, h, o, at, banned);
    FedInsert(woven, o, at, line);
    AvoidsInsert(woven, o, at, line, banned);
    InsertedAt(woven, at, line);
    assert t[..o] == t[..at][..o] == woven[..o];
    forall i | 0 <= i < h + 1 ensures Has(t, o, chain[i]) {
      HasInsert(woven, o, at, line, chain[i]);
    }
  }

  /** The next line of the chain is an assignment of its value, or copies what the line before it wrote. */
  lemma SourceWritten(text: seq<Line>, woven: seq<Line>, vars: seq<string>, value: string, edge: nat, h: nat, o: nat, at: nat,
                      banned: Option<string>)
    requires h < |vars| && FedSoFar(text, woven, ChainOf(vars, value), edge, h, o, banned)
    requires o <= at <= |woven| && (h > 0 ==> edge <= at) && Some(value) != banned
    ensures var line := ChainOf(vars, value)[h];
            && (line.Assign? ==> Some(line.value) != banned)
            && (line.Copy? ==> WrittenBefore(woven, o, at, line.source))
  {
    ChainLine(vars, value, h);
    if h > 0 {
      ChainLine(vars, value, h - 1);
      assert Target(woven[edge - 1]) == Some(vars[h - 1]);
    }
  }

  lemma EdgeOrder(positions: seq<nat>, n: nat, h: nat)
    requires h < |positions| && Positions(positions, n)
    ensures Edge(positions, h) <= positions[h] + h && positions[h] + h + 1 == Edge(positions, h + 1)
  {
  }

  ghost predicate CanWeave(text: seq<Line>, count: nat, positions: seq<nat>, o: nat) {
    count == |positions| && Positions(positions, |text|) && Behind(positions, o) && o <= |text|
  }

  /** Where line `h` goes. */
  lemma PlaceFor(text: seq<Line>, count: nat, positions: seq<nat>, h: nat, o: nat)
    requires 0 < h <= count && CanWeave(text, count, positions, o)
    ensures o <= positions[h - 1] + h - 1 <= |text| + h - 1 && Edge(positions, h - 1) <= positions[h - 1] + h - 1
    ensures Edge(positions, h) == positions[h - 1] + h
  {
    EdgeOrder(positions, |text|, h - 1);
  }

  /** One line more. */
  lemma WovenFedNext(text: seq<Line>, before: seq<Line>, woven: seq<Line>, vars: seq<string>, value: string, edge: nat, next: nat,
                     h: nat, o: nat, banned: Option<string>)
    requires 0 < h <= |vars| && FedSoFar(text, before, ChainOf(vars, value), edge, h - 1, o, banned) && Some(value) != banned
    requires o < next <= |before| + 1 && edge < next
    requires woven == InsertAt(before, next - 1, ChainOf(vars, value)[h - 1])
    ensures FedSoFar(text, woven, ChainOf(vars, value), next, h, o, banned)
  {
    WeaveFed(text, before, vars, value, edge, h - 1, o, next - 1, banned);
  }

  lemma {:induction false} WovenFed(text: seq<Line>, vars: seq<string>, value: string, positions: seq<nat>, h: nat, o: nat,
                                    banned: Option<string>)
    requires h <= |vars| && CanWeave(text, |vars|, positions, o)
    requires FedFrom(text, o) && Avoids(text, o, banned) && Some(value) != banned
    ensures FedSoFar(text, Woven(text, ChainOf(vars, value), positions, h), ChainOf(vars, value), Edge(positions, h), h, o, banned)
  {
    if h > 0 {
      WovenFed(text, vars, value, positions, h - 1, o, banned);
      PlaceFor(text, |vars|, positions, h, o);
      WovenFedNext(text, Woven(text, ChainOf(vars, value), positions, h - 1), Woven(text, ChainOf(vars, value), positions, h), vars,
                   value, Edge(positions, h - 1), Edge(positions, h), h, o, banned);
    }
  }

  lemma {:induction false} WovenKeeps(text: seq<Line>, chain: seq<Line>, positions: seq<nat>, h: nat, o: nat, kept: Line)
    requires h <= |chain| == |positions| && Positions(positions, |text|) && Behind(positions, o) && o <= |text| && Has(text, o, kept)
    ensures Has(Woven(text, chain, positions, h), o, kept)
  {
    if h > 0 {
      WovenKeeps(text, chain, positions, h - 1, o, kept);
      HasInsert(Woven(text, chain, positions, h - 1), o, positions[h - 1] + h - 1, chain[h - 1], kept);
    }
  }

  // ----- every prompt runs, whatever the names

  /** The chains of a prompt: one over each slice. */
  ghost function PromptChains(names: seq<string>, width: nat, values: nat -> string): (chains: seq<seq<Line>>)
    requires width >= 1
    ensures |chains| == |Slices(names, width)| && forall k :: 0 <= k < |chains| ==> |chains[k]| == width
  {
    ChainsFor(Slices(names, width), values)
  }

  lemma {:induction false} TextFed(names: seq<string>, width: nat, values: nat -> string, noises: nat,
                                   sample: (nat, nat, nat) -> seq<nat>, c: nat)
    requires Samples(sample) && 1 <= width <= noises && c <= |Slices(names, width)|
    ensures FedFrom(Text(noises, PromptChains(names, width, values), sample, c), 0)
  {
    var chains := PromptChains(names, width, values);
    if c > 0 {
      TextFed(names, width, values, noises, sample, c - 1);
      var text := Text(noises, chains, sample, c - 1);
      WovenFed(text, Slices(names, width)[c - 1], values(c - 1), sample(c - 1, |text|, width), width, 0, None);
    }
  }

  /** No prompt reads a variable before it is set. */
  lemma PromptRuns(names: seq<string>, width: nat, values: nat -> string, noises: nat, sample: (nat, nat, nat) -> seq<nat>)
    requires Samples(sample) && 1 <= width <= noises
    ensures Exec(Prompt(names, width, values, noises, sample), map[]).Some?
  {
    var text := Prompt(names, width, values, noises, sample);
    TextFed(names, width, values, noises, sample, |Slices(names, width)|);
    assert text[..0] == [] && text[..|text|] == text;
    FedRuns(text, 0, |text|, None);
  }

  // ----- when the answer holds

  /** The prompt binds every answer variable to the queried value. */
  ghost predicate Holds(names: seq<string>, width: nat, values: nat -> string, noises: nat, sample: (nat, nat, nat) -> seq<nat>)
    requires Samples(sample) && 1 <= width <= noises && width <= |names|
  {
    AllBound(names[..width], values(0), Exec(Prompt(names, width, values, noises, sample), map[]))
  }

  /** No name of the first chain occurs in a later one. */
  ghost predicate FirstAlone(names: seq<string>, width: nat) {
    forall i, j :: 0 <= i < width <= j < |names| ==> names[i] != names[j]
  }

  lemma WholeMultiple(n: int, width: int)
    requires width >= 1 && n >= width && n % width == 0
    ensures (n - width) % width == 0
  {
    var q := n / width;
    assert n == q * width;
    assert n - width == (q - 1) * width;
    Remainder(n - width, width, q - 1, 0);
  }

  lemma {:induction false} SlicesJoin(names: seq<string>, width: nat)
    requires width >= 1 && |names| % width == 0
    ensures Join(Slices(names, width)) == names
    decreases |names|
  {
    if |names| >= width {
      var front := names[..|names| - width];
      WholeMultiple(|names|, width);
      SlicesJoin(front, width);
      JoinSnoc(Slices(front, width), names[|names| - width..]);
    } else {
      assert |names| == 0;
    }
  }

  /** Names that divide evenly: the first slice is their front. */
  lemma FirstOf(names: seq<string>, width: nat)
    requires 1 <= width && names != [] && |names| % width == 0
    ensures width <= |names| && Slices(names, width) != [] && Slices(names, width)[0] == names[..width]
    ensures Join(Slices(names, width)) == names
  {
    SlicesJoin(names, width);
    FirstSlice(Slices(names, width));
  }

  lemma AloneKeys(names: seq<string>, width: nat, k: nat)
    requires 1 <= width && names != [] && |names| % width == 0 && FirstAlone(names, width)
    requires 0 < k < |Slices(names, width)|
    ensures Keys(Slices(names, width)[0]) !! Keys(Slices(names, width)[k])
  {
    var vars := Slices(names, width);
    FirstOf(names, width);
    forall i, j | 0 <= i < width && 0 <= j < width ensures vars[0][i] != vars[k][j] {
      JoinIndex(vars, k, j);
      JoinPrefix(vars, 0, k);
      assert vars[0][i] == names[i];
    }
  }

  lemma {:induction false} JoinFind(vars: seq<seq<string>>, j: nat) returns (k: nat, i: nat)
    requires j < |Join(vars)|
    ensures k < |vars| && i < |vars[k]| && vars[k][i] == Join(vars)[j] && (k == 0 ==> i == j)
  {
    var front := vars[..|vars| - 1];
    if j < |Join(front)| {
      k, i := JoinFind(front, j);
    } else {
      k, i := |vars| - 1, j - |Join(front)|;
      assert k == 0 ==> front == [];
    }
  }

  // ----- it holds when the first chain is alone

  lemma {:induction false} FirstChainKept(names: seq<string>, width: nat, values: nat -> string, noises: nat,
                                          sample: (nat, nat, nat) -> seq<nat>, c: nat)
    requires Samples(sample) && 1 <= width <= noises && 1 <= c <= |Slices(names, width)|
    requires forall k :: 0 < k < |Slices(names, width)| ==> Keys(Slices(names, width)[0]) !! Keys(Slices(names, width)[k])
    ensures var chains := PromptChains(names, width, values);
            Project(Text(noises, chains, sample, c), Keys(Slices(names, width)[0])) == chains[0]
  {
    var vars, chains := Slices(names, width), PromptChains(names, width, values);
    var text := Text(noises, chains, sample, c - 1);
    var keys := Keys(vars[c - 1]);
    ChainLocal(vars[c - 1], values(c - 1));
    WovenProjects(text, chains[c - 1], sample(c - 1, |text|, width), keys);
    if c > 1 {
      FirstChainKept(names, width, values, noises, sample, c - 1);
    } else {
      assert Foreign(text, keys);
    }
  }

  lemma AloneHolds(names: seq<string>, width: nat, values: nat -> string, noises: nat, sample: (nat, nat, nat) -> seq<nat>)
    requires Samples(sample) && 1 <= width <= noises && names != [] && |names| % width == 0 && FirstAlone(names, width)
    ensures width <= |names| && Holds(names, width, values, noises, sample)
  {
    var vars, text := Slices(names, width), Prompt(names, width, values, noises, sample);
    FirstOf(names, width);
    forall k | 0 < k < |vars| ensures Keys(vars[0]) !! Keys(vars[k]) {
      AloneKeys(names, width, k);
    }
    FirstChainKept(names, width, values, noises, sample, |vars|);
    PromptRuns(names, width, values, noises, sample);
    KeptChainBinds(text, vars[0], values(0));
  }

  /** A chain that is all the text says about its variables binds them. */
  lemma KeptChainBinds(text: seq<Line>, vars: seq<string>, value: string)
    requires vars != [] && Project(text, Keys(vars)) == ChainOf(vars, value) && Exec(text, map[]).Some?
    ensures AllBound(vars, value, Exec(text, map[]))
  {
    var keys := Keys(vars);
    ChainLocal(vars, value);
    forall i | 0 <= i < |text| && Target(text[i]) in keys ensures Local(text[i], keys) {
      ProjectMember(text, keys, text[i]);
    }
    ExecProject(text, keys, map[], map[]);
    ExecChain(vars, value, map[]);
    forall i | 0 <= i < |vars| ensures vars[i] in Exec(text, map[]).value && Exec(text, map[]).value[vars[i]] == value {
      assert Some(vars[i]) in keys;
    }
  }

  // ----- it can fail when it is not

  /** The first `k` positions. */
  ghost function Earliest(k: nat): (ps: seq<nat>)
    ensures |ps| == k && forall i :: 0 <= i < k ==> ps[i] == i
  {
    seq(k, i => i)
  }

  /** The last `k` of `n` positions. */
  ghost function Latest(n: nat, k: nat): (ps: seq<nat>)
    requires k <= n
    ensures |ps| == k && forall i :: 0 <= i < k ==> ps[i] == n - k + i
  {
    seq(k, i requires 0 <= i => n - k + i)
  }

  ghost function EarlyOrLate(c: nat, n: nat, k: nat): seq<nat> {
    if n < k then [] else if c == 0 then Earliest(k) else Latest(n, k)
  }

  /** The first chain goes as early as it can, every later one as late. */
  ghost predicate EarlyLate(sample: (nat, nat, nat) -> seq<nat>) {
    forall c, n, k :: k <= n ==> sample(c, n, k) == if c == 0 then Earliest(k) else Latest(n, k)
  }

  lemma EarlyLateExists() returns (sample: (nat, nat, nat) -> seq<nat>)
    ensures Samples(sample) && EarlyLate(sample)
  {
    sample := EarlyOrLate;
  }

  /** Behind the first chain everything feeds itself, avoids the queried value, and holds all later chains. */
  ghost predicate Overruns(text: seq<Line>, first: seq<Line>, vars: seq<seq<string>>, values: nat -> string, o: nat, c: nat)
    requires c <= |vars|
  {
    && o <= |text| && o <= |first| && text[..o] == first[..o] && FedFrom(text, o) && Avoids(text, o, Some(values(0)))
    && forall k, i :: 0 < k < c && 0 <= i < |vars[k]| ==> Has(text, o, ChainOf(vars[k], values(k))[i])
  }

  lemma SampleAt(sample: (nat, nat, nat) -> seq<nat>, c: nat, n: nat, k: nat)
    requires EarlyLate(sample) && k <= n
    ensures sample(c, n, k) == if c == 0 then Earliest(k) else Latest(n, k)
  {
  }

  lemma TextNext(noises: nat, chains: seq<seq<Line>>, sample: (nat, nat, nat) -> seq<nat>, c: nat)
    requires Samples(sample) && Fits(noises, chains) && c < |chains|
    ensures var text := Text(noises, chains, sample, c);
            Text(noises, chains, sample, c + 1) == Woven(text, chains[c], sample(c, |text|, |chains[c]|), |chains[c]|)
  {
  }

  /** Chains of one length, and noise enough to have the first of them in front. */
  ghost predicate Roomy(noises: nat, vars: seq<seq<string>>, sample: (nat, nat, nat) -> seq<nat>, width: nat) {
    Samples(sample) && 1 <= width && 2 * width - 1 <= noises && forall k :: 0 <= k < |vars| ==> |vars[k]| == width
  }

  ghost predicate Others(count: nat, values: nat -> string) {
    forall k :: 0 < k < count ==> values(k) != values(0)
  }

  lemma FirstEarly(noises: nat, vars: seq<seq<string>>, values: nat -> string, sample: (nat, nat, nat) -> seq<nat>, width: nat)
    requires Roomy(noises, vars, sample, width) && EarlyLate(sample) && vars != []
    ensures var text := Text(noises, ChainsFor(vars, values), sample, 1);
            |text| == noises + width && Overruns(text, text, vars, values, 2 * width - 1, 1)
  {
    var chains := ChainsFor(vars, values);
    var noise := Text(noises, chains, sample, 0);
    TextNext(noises, chains, sample, 0);
    SampleAt(sample, 0, noises, width);
    ChainLocal(vars[0], values(0));
    NoiseBehind(noise, chains[0], Keys(vars[0]));
    NoiseOverruns(Woven(noise, chains[0], Earliest(width), width), vars, values, 2 * width - 1);
  }

  lemma NoiseOverruns(text: seq<Line>, vars: seq<seq<string>>, values: nat -> string, o: nat)
    requires o <= |text| && vars != [] && forall j :: o <= j < |text| ==> text[j] == Noise
    ensures Overruns(text, text, vars, values, o, 1)
  {
  }

  /** Inserted as early as possible, a chain leaves noise behind its last line. */
  lemma NoiseBehind(noise: seq<Line>, chain: seq<Line>, keys: set<Option<string>>)
    requires chain != [] && 2 * |chain| - 1 <= |noise| && forall i :: 0 <= i < |noise| ==> noise[i] == Noise
    requires forall i :: 0 <= i < |chain| ==> Target(chain[i]) in keys
    ensures var text := Woven(noise, chain, Earliest(|chain|), |chain|);
            forall j :: 2 * |chain| - 1 <= j < |text| ==> text[j] == Noise
  {
    var positions, edge := Earliest(|chain|), 2 * |chain| - 1;
    WovenPart(noise, chain, positions, keys, |chain|);
    var text := Woven(noise, chain, positions, |chain|);
    assert Edge(positions, |chain|) == edge;
    assert forall j :: edge <= j < |text| ==> text[j] == text[edge..][j - edge];
  }

  /** One later chain more, inserted from `o` on. */
  lemma OverrunsNext(text: seq<Line>, first: seq<Line>, vars: seq<seq<string>>, values: nat -> string, o: nat, c: nat,
                     positions: seq<nat>)
    requires 0 < c < |vars| && Overruns(text, first, vars, values, o, c) && values(c) != values(0)
    requires |positions| == |vars[c]| && Positions(positions, |text|) && Behind(positions, o)
    ensures Overruns(Woven(text, ChainOf(vars[c], values(c)), positions, |vars[c]|), first, vars, values, o, c + 1)
  {
    var chain, h := ChainOf(vars[c], values(c)), |vars[c]|;
    WovenFed(text, vars[c], values(c), positions, h, o, Some(values(0)));
    forall k, i | 0 < k < c + 1 && 0 <= i < |vars[k]| ensures Has(Woven(text, chain, positions, h), o, ChainOf(vars[k], values(k))[i]) {
      if k < c {
        WovenKeeps(text, chain, positions, h, o, ChainOf(vars[k], values(k))[i]);
      }
    }
  }

  lemma LateBehind(n: nat, k: nat, o: nat)
    requires k + o <= n
    ensures Behind(Latest(n, k), o) && Positions(Latest(n, k), n)
  {
  }

  /** The text once chain `c` has gone in as late as it can. */
  ghost function Late(text: seq<Line>, vars: seq<seq<string>>, values: nat -> string, c: nat): seq<Line>
    requires c < |vars|
  {
    if |vars[c]| <= |text| then Woven(text, ChainOf(vars[c], values(c)), Latest(|text|, |vars[c]|), |vars[c]|) else text
  }

  lemma LateStep(text: seq<Line>, first: seq<Line>, vars: seq<seq<string>>, values: nat -> string, o: nat, c: nat)
    requires 0 < c < |vars| && Overruns(text, first, vars, values, o, c) && values(c) != values(0)
    requires |vars[c]| + o <= |text|
    ensures |Late(text, vars, values, c)| >= |text| && Overruns(Late(text, vars, values, c), first, vars, values, o, c + 1)
  {
    LateBehind(|text|, |vars[c]|, o);
    OverrunsNext(text, first, vars, values, o, c, Latest(|text|, |vars[c]|));
  }

  /** Each text is the one before with the next chain in it. */
  ghost predicate Grows(texts: seq<seq<Line>>, vars: seq<seq<string>>, values: nat -> string) {
    |texts| == |vars| + 1 && forall c :: 1 <= c < |vars| ==> texts[c + 1] == Late(texts[c], vars, values, c)
  }

  lemma {:induction false} GrowthOverruns(texts: seq<seq<Line>>, vars: seq<seq<string>>, values: nat -> string, width: nat,
                                          o: nat, c: nat)
    requires Grows(texts, vars, values) && Others(|vars|, values) && 1 <= c <= |vars|
    requires forall k :: 0 <= k < |vars| ==> |vars[k]| == width
    requires width + o <= |texts[1]| && Overruns(texts[1], texts[1], vars, values, o, 1)
    ensures width + o <= |texts[c]| && Overruns(texts[c], texts[1], vars, values, o, c)
  {
    if c > 1 {
      GrowthOverruns(texts, vars, values, width, o, c - 1);
      LateStep(texts[c - 1], texts[1], vars, values, o, c - 1);
    }
  }

  ghost function Texts(noises: nat, vars: seq<seq<string>>, values: nat -> string, sample: (nat, nat, nat) -> seq<nat>,
                       width: nat): (texts: seq<seq<Line>>)
    requires Roomy(noises, vars, sample, width)
    ensures |texts| == |vars| + 1
    ensures forall c :: 0 <= c <= |vars| ==> texts[c] == Text(noises, ChainsFor(vars, values), sample, c)
  {
    seq(|vars| + 1, c requires 0 <= c <= |vars| => Text(noises, ChainsFor(vars, values), sample, c))
  }

  lemma TextLate(noises: nat, vars: seq<seq<string>>, values: nat -> string, sample: (nat, nat, nat) -> seq<nat>,
                 width: nat, c: nat)
    requires Roomy(noises, vars, sample, width) && EarlyLate(sample) && 1 <= c < |vars|
    ensures var chains := ChainsFor(vars, values);
            Text(noises, chains, sample, c + 1) == Late(Text(noises, chains, sample, c), vars, values, c)
  {
    var chains := ChainsFor(vars, values);
    var text := Text(noises, chains, sample, c);
    TextNext(noises, chains, sample, c);
    SampleAt(sample, c, |text|, width);
  }

  lemma TextsGrow(noises: nat, vars: seq<seq<string>>, values: nat -> string, sample: (nat, nat, nat) -> seq<nat>,
                  width: nat)
    requires Roomy(noises, vars, sample, width) && EarlyLate(sample)
    ensures Grows(Texts(noises, vars, values, sample, width), vars, values)
  {
    var texts := Texts(noises, vars, values, sample, width);
    forall c | 1 <= c < |vars| ensures texts[c + 1] == Late(texts[c], vars, values, c) {
      TextLate(noises, vars, values, sample, width, c);
    }
  }

  /** From the first text of such a sequence to the last. */
  lemma FirstToLast(texts: seq<seq<Line>>, first: seq<Line>, last: seq<Line>, vars: seq<seq<string>>, values: nat -> string,
                    width: nat, o: nat)
    requires vars != [] && Grows(texts, vars, values) && Others(|vars|, values) && first == texts[1] && last == texts[|vars|]
    requires forall k :: 0 <= k < |vars| ==> |vars[k]| == width
    requires width + o <= |first| && Overruns(first, first, vars, values, o, 1)
    ensures Overruns(last, first, vars, values, o, |vars|)
  {
    GrowthOverruns(texts, vars, values, width, o, |vars|);
  }

  lemma LateOverruns(noises: nat, vars: seq<seq<string>>, values: nat -> string, sample: (nat, nat, nat) -> seq<nat>,
                     width: nat)
    requires Roomy(noises, vars, sample, width) && EarlyLate(sample) && Others(|vars|, values) && vars != []
    ensures var chains := ChainsFor(vars, values);
            Overruns(Text(noises, chains, sample, |vars|), Text(noises, chains, sample, 1), vars, values, 2 * width - 1, |vars|)
  {
    var chains := ChainsFor(vars, values);
    TextsGrow(noises, vars, values, sample, width);
    FirstEarly(noises, vars, values, sample, width);
    FirstToLast(Texts(noises, vars, values, sample, width), Text(noises, chains, sample, 1), Text(noises, chains, sample, |vars|),
                vars, values, width, 2 * width - 1);
  }

  /** A variable of a later chain does not end with the queried value. */
  lemma LateWins(names: seq<string>, width: nat, values: nat -> string, noises: nat, sample: (nat, nat, nat) -> seq<nat>,
                 k: nat, i: nat)
    requires Samples(sample) && EarlyLate(sample)
    requires 1 <= width && 2 * width - 1 <= noises && 0 < k < |Slices(names, width)| && i < width
    requires Others(|Slices(names, width)|, values)
    ensures var env := Exec(Prompt(names, width, values, noises, sample), map[]);
            env.Some? && Slices(names, width)[k][i] in env.value && env.value[Slices(names, width)[k][i]] != values(0)
  {
    var vars, chains, o := Slices(names, width), PromptChains(names, width, values), 2 * width - 1;
    var text, first := Prompt(names, width, values, noises, sample), Text(noises, chains, sample, 1);
    LateOverruns(noises, vars, values, sample, width);
    TextFed(names, width, values, noises, sample, 1);
    Overrun(text, first, vars, values, o, k, i);
  }

  lemma Overrun(text: seq<Line>, first: seq<Line>, vars: seq<seq<string>>, values: nat -> string, o: nat, k: nat, i: nat)
    requires Overruns(text, first, vars, values, o, |vars|) && FedFrom(first, 0) && 0 < k < |vars| && i < |vars[k]|
    ensures var env := Exec(text, map[]); env.Some? && vars[k][i] in env.value && env.value[vars[k][i]] != values(0)
  {
    assert first[..0] == [] && text[..|text|] == text;
    assert Avoids(first, 0, None);
    FedRuns(first, 0, o, None);
    FedRuns(text, o, |text|, Some(values(0)));
    ChainLine(vars[k], values(k), i);
    assert Has(text, o, ChainOf(vars[k], values(k))[i]);
    var j :| o <= j < |text| && text[j] == ChainOf(vars[k], values(k))[i];
    assert Target(text[j]) == Some(vars[k][i]);
    assert WrittenBefore(text, o, |text|, vars[k][i]);
  }

  /** Other chains ask for other values. */
  ghost predicate OtherValues(names: seq<string>, width: nat, values: nat -> string)
    requires width >= 1
  {
    Others(|Slices(names, width)|, values)
  }

  ghost predicate AlwaysHolds(names: seq<string>, width: nat, values: nat -> string, noises: nat)
    requires 1 <= width <= noises && width <= |names|
  {
    forall sample :: Samples(sample) ==> Holds(names, width, values, noises, sample)
  }

  /**
   For names that divide evenly, other chains' values different from the first chain's, and noise of at least twice a
   chain less one: the answer holds for every draw of positions if and only if no name of the first chain occurs in a
   later one.
   */
  lemma CollisionExact(names: seq<string>, width: nat, values: nat -> string, noises: nat)
    requires 1 <= width <= |names| && |names| % width == 0 && 2 * width - 1 <= noises && OtherValues(names, width, values)
    ensures AlwaysHolds(names, width, values, noises) <==> FirstAlone(names, width)
  {
    if FirstAlone(names, width) {
      forall sample | Samples(sample) ensures Holds(names, width, values, noises, sample) {
        AloneHolds(names, width, values, noises, sample);
      }
    } else {
      var i, j :| 0 <= i < width <= j < |names| && names[i] == names[j];
      var sample := EarlyLateExists();
      CollisionFails(names, width, values, noises, sample, i, j);
    }
  }

  lemma CollisionFails(names: seq<string>, width: nat, values: nat -> string, noises: nat, sample: (nat, nat, nat) -> seq<nat>,
                       i: nat, j: nat)
    requires Samples(sample) && EarlyLate(sample)
    requires 1 <= width <= |names| && |names| % width == 0 && 2 * width - 1 <= noises && OtherValues(names, width, values)
    requires i < width <= j < |names| && names[i] == names[j]
    ensures !Holds(names, width, values, noises, sample)
  {
    FirstOf(names, width);
    var k, at := JoinFind(Slices(names, width), j);
    LateWins(names, width, values, noises, sample, k, at);
    assert names[..width][i] == names[i];
  }

  // ----- distinct names

  /** The answers are all the variables with the queried value once the prompt has run. */
  ghost predicate Complete(names: seq<string>, width: nat, values: nat -> string, noises: nat,
                           sample: (nat, nat, nat) -> seq<nat>)
    requires Samples(sample) && 1 <= width <= noises && width <= |names|
  {
    var env := Exec(Prompt(names, width, values, noises, sample), map[]);
    env.Some? && forall v :: v in names[..width] <==> v in env.value && env.value[v] == values(0)
  }

  lemma DistinctComputes(names: seq<string>, width: nat, values: nat -> string, noises: nat, sample: (nat, nat, nat) -> seq<nat>)
    requires Samples(sample) && 1 <= width <= noises && names != [] && |names| % width == 0 && DistinctNames(names)
    ensures DisjointKeys(Slices(names, width))
    ensures var env := Exec(Prompt(names, width, values, noises, sample), map[]);
            env.Some? && Computes(env.value, Slices(names, width), values)
  {
    var vars, chains := Slices(names, width), PromptChains(names, width, values);
    FirstOf(names, width);
    DistinctSlices(names, vars);
    ChainsOfTargets(names, width, values, vars, chains);
    TextInterleaved(noises, vars, chains, sample, |vars|);
    TextComputes(Prompt(names, width, values, noises, sample), noises, vars, chains, values);
  }

  /** For distinct names that divide evenly, whatever the positions: complete if and only if no other chain drew the value. */
  lemma CompleteExact(names: seq<string>, width: nat, values: nat -> string, noises: nat, sample: (nat, nat, nat) -> seq<nat>)
    requires Samples(sample) && 1 <= width <= noises && names != [] && |names| % width == 0 && DistinctNames(names)
    ensures width <= |names| && (Complete(names, width, values, noises, sample) <==> OtherValues(names, width, values))
  {
    FirstOf(names, width);
    DistinctComputes(names, width, values, noises, sample);
    AnswerExact(Exec(Prompt(names, width, values, noises, sample), map[]).value, Slices(names, width), values);
  }

  // ----- inputs

  /** Two variables are wanted, and a second name only comes with the fourth draw: four names, so two chains. */
  const Repeated: seq<string> := ["A", "A", "A", "B"]

  lemma RepeatedDrawn()
    ensures Drawn(Repeated, 2) && |Repeated| % 2 == 0 && !FirstAlone(Repeated, 2)
  {
    assert Repeated[0] in Members(Repeated) && Repeated[3] in Members(Repeated);
    assert {"A", "B"} <= Members(Repeated);
    SubsetSize({"A", "B"}, Members(Repeated));
    forall n | 2 <= n < 4 ensures |Members(Repeated[..n])| < 2 {
      assert Members(Repeated[..n]) <= {"A"};
      SubsetSize(Members(Repeated[..n]), {"A"});
    }
    assert Repeated[0] == Repeated[2];
  }

  /** One chain of one hop is asked for; these names make two, and some positions give the answer the other's value. */
  lemma CollisionBreaks(values: nat -> string)
    requires values(1) != values(0)
    ensures Drawn(Repeated, 2) && |Repeated| % 2 == 0
    ensures exists sample :: Samples(sample) && !Holds(Repeated, 2, values, 3, sample)
  {
    RepeatedDrawn();
    assert |Slices(Repeated, 2)| == 2;
    var sample := EarlyLateExists();
    CollisionFails(Repeated, 2, values, 3, sample, 0, 2);
  }

  /** Three names, drawn because the first two are the same, do not divide into chains of one hop. */
  lemma RedrawLeavesRemainder()
    ensures Drawn(["A", "A", "B"], 2) && |["A", "A", "B"]| % 2 != 0
  {
    var names := ["A", "A", "B"];
    assert names[0] in Members(names) && names[2] in Members(names);
    SubsetSize({"A", "B"}, Members(names));
    assert Members(names[..2]) <= {"A"};
    SubsetSize(Members(names[..2]), {"A"});
  }

  /** Four different names in two chains with one value: no text has the complete answers. */
  lemma SameValueElsewhere(value: string, noises: nat, sample: (nat, nat, nat) -> seq<nat>)
    requires Samples(sample) && 2 <= noises
    ensures DistinctNames(["A", "B", "C", "D"]) && !Complete(["A", "B", "C", "D"], 2, _ => value, noises, sample)
  {
    var names := ["A", "B", "C", "D"];
    assert |Slices(names, 2)| == 2;
    CompleteExact(names, 2, _ => value, noises, sample);
  }
}
