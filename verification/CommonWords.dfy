/**
 The common-word task of ruler_vt/tasks.py: base-26 words and the answer key. The drawn offset and the
 shuffle are arbitrary. The word space has 26^4 words; the theorems say exactly when the answer list is
 the set of most frequent words, including when the vocabulary wraps around that space.
 */
module CommonWords {
  import opened Arithmetic
  import opened Sequences
  import opened Sorting

  const SPACE: nat := 456976

  // ----- base 26

  function Letter(d: nat): char
    requires d < 26
  {
    ('a' as int + d) as char
  }

  ghost function Value(c: char): int { c as int - 'a' as int }

  function Pow26(width: nat): (r: nat)
    ensures r >= 1
  {
    if width == 0 then 1 else 26 * Pow26(width - 1)
  }

  function Encode(value: nat, width: nat): (r: string)
    ensures |r| == width
  {
    if width == 0 then "" else Encode(value / 26, width - 1) + [Letter(value % 26)]
  }

  ghost function Decode(s: string): int {
    if s == "" then 0 else 26 * Decode(s[..|s| - 1]) + Value(s[|s| - 1])
  }

  /** What is left of `value` above `width` letters. */
  ghost function Above(value: nat, width: nat): nat {
    if width == 0 then value else Above(value / 26, width - 1)
  }

  lemma Carry(value: nat, p: nat, q: nat, d: nat)
    requires value / 26 == p * q + d && d < p
    ensures value == (26 * p) * q + (26 * d + value % 26)
    ensures 26 * d + value % 26 < 26 * p
  {
    assert (26 * p) * q == 26 * (p * q);
  }

  /** The letters spell the value's remainder by the width's space: what does not fit is cut off. */
  lemma {:induction false} DecodeEncode(value: nat, width: nat)
    ensures 0 <= Decode(Encode(value, width)) < Pow26(width)
    ensures value == Pow26(width) * Above(value, width) + Decode(Encode(value, width))
  {
    if width > 0 {
      DecodeEncode(value / 26, width - 1);
      var front, last := Encode(value / 26, width - 1), Letter(value % 26);
      assert (front + [last])[..width - 1] == front;
      Carry(value, Pow26(width - 1), Above(value / 26, width - 1), Decode(front));
    }
  }

  /** Values that differ by a multiple of the width's space have the same letters. */
  lemma {:induction false} EncodeWraps(value: nat, other: nat, width: nat, k: int)
    requires value - other == Pow26(width) * k
    ensures Encode(value, width) == Encode(other, width)
  {
    if width > 0 {
      var p := Pow26(width - 1);
      assert (26 * p) * k == 26 * (p * k);
      EncodeWraps(value / 26, other / 26, width - 1, k);
    }
  }

  /** _base26: least significant letter first, then reversed. */
  method Base26(value: nat, width: nat) returns (s: string)
    ensures s == Encode(value, width)
  {
    var chars: string := "";
    var rest := value;
    var n := 0;
    while n < width
      invariant 0 <= n <= width
      invariant Encode(value, width) == Encode(rest, width - n) + Reversed(chars)
    {
      assert Reversed(chars + [Letter(rest % 26)]) == [Letter(rest % 26)] + Reversed(chars);
      chars := chars + [Letter(rest % 26)];
      rest := rest / 26;
      n := n + 1;
    }
    s := Reversed(chars);
  }

  function Reversed(s: string): string { seq(|s|, i requires 0 <= i < |s| => s[|s| - 1 - i]) }

  function Word(index: nat): string { "ruler-" + Encode(index, 4) }

  lemma SameRemainder(i: nat, j: nat)
    requires i % SPACE == j % SPACE
    ensures i - j == SPACE * (i / SPACE - j / SPACE)
  {
  }

  lemma EncodeInjective(i: nat, j: nat, width: nat)
    requires Pow26(width) == SPACE
    ensures Encode(i, width) == Encode(j, width) <==> i % SPACE == j % SPACE
  {
    DecodeEncode(i, width);
    DecodeEncode(j, width);
    if i % SPACE == j % SPACE {
      SameRemainder(i, j);
      EncodeWraps(i, j, width, i / SPACE - j / SPACE);
    }
  }

  lemma Space()
    ensures Pow26(4) == SPACE
  {
    assert Pow26(1) == 26 && Pow26(2) == 676 && Pow26(3) == 17576;
  }

  /** Two indices name the same word exactly when they agree modulo the word space. */
  lemma WordInjective(i: nat, j: nat)
    ensures Word(i) == Word(j) <==> i % SPACE == j % SPACE
  {
    Space();
    EncodeInjective(i, j, 4);
    assert Word(i)[6..] == Encode(i, 4) && Word(j)[6..] == Encode(j, 4);
  }

  function WordAt(offset: nat, j: nat): string { Word(offset + j) }

  // ----- the payload

  function Vocabulary(offset: nat, n: nat): (r: seq<string>)
    ensures |r| == n
    ensures forall i :: 0 <= i < n ==> r[i] == WordAt(offset, i)
  {
    seq(n, i requires 0 <= i => WordAt(offset, i))
  }

  /** `words * k` on a Python list. */
  function Repeat(words: seq<string>, k: nat): seq<string> {
    if k == 0 then [] else words + Repeat(words, k - 1)
  }

  /** `common * freq_cw + uncommon * freq_ucw`, before the shuffle. */
  function WordList(offset: nat, distinct: nat, numCw: nat, freqCw: nat, freqUcw: nat): seq<string>
    requires numCw <= distinct
  {
    var vocabulary := Vocabulary(offset, distinct);
    Repeat(vocabulary[..numCw], freqCw) + Repeat(vocabulary[numCw..], freqUcw)
  }

  /** What resolve_task_config demands of the task's parameters. */
  predicate ValidTask(numCw: int, freqCw: int, freqUcw: int) {
    numCw >= 1 && freqUcw >= 1 && freqCw > freqUcw
  }

  ghost predicate Shuffles(shuffle: seq<string> -> seq<string>) {
    forall words :: multiset(shuffle(words)) == multiset(words)
  }

  /** _cwe_payload, up to the text: the shuffled words and the answer list. */
  method CwePayload(count: int, offset: nat, numCw: int, freqCw: int, freqUcw: int, shuffle: seq<string> -> seq<string>)
    returns (words: seq<string>, answers: seq<string>)
    requires ValidTask(numCw, freqCw, freqUcw) && Shuffles(shuffle)
    ensures var distinct := Max(numCw + 1, count);
            && (AnswersAreMostFrequent(words, answers) <==> KeyFits(numCw, distinct))
            && (distinct <= SPACE ==> AnswersAreMostFrequent(words, answers))
    ensures answers == Vocabulary(offset, numCw)
    ensures forall i :: 0 <= i < numCw ==> answers[i] == "ruler-" + Encode(offset + i, 4)
    ensures multiset(words) == multiset(WordList(offset, Max(numCw + 1, count), numCw, freqCw, freqUcw))
  {
    var distinct := Max(numCw + 1, count);
    var vocabulary := Vocabulary(offset, distinct);
    answers := vocabulary[..numCw];
    words := shuffle(WordList(offset, distinct, numCw, freqCw, freqUcw));
    AnswerKey(offset, distinct, numCw, freqCw, freqUcw, words);
    if distinct <= SPACE {
      SmallVocabulary(numCw, distinct);
    }
    assert answers == Vocabulary(offset, numCw);
  }

  // ----- counting

  /** How many of the first `n` indices fall on residue `j`. */
  ghost function Hits(n: nat, j: nat): nat { n / SPACE + (if j < n % SPACE then 1 else 0) }

  lemma HitsNext(n: nat, j: nat)
    requires j < SPACE
    ensures Hits(n + 1, j) == Hits(n, j) + (if n % SPACE == j then 1 else 0)
  {
  }

  lemma VocabularyNext(offset: nat, n: nat)
    ensures Vocabulary(offset, n + 1) == Vocabulary(offset, n) + [WordAt(offset, n)]
  {
  }

  lemma SameResidue(offset: nat, n: nat, j: nat)
    requires j < SPACE
    ensures (offset + n) % SPACE == (offset + j) % SPACE <==> n % SPACE == j
  {
    var a, b := (offset + n) / SPACE, (offset + j) / SPACE;
    var x, y := (offset + n) % SPACE, (offset + j) % SPACE;
    assert offset + n == SPACE * a + x && offset + j == SPACE * b + y;
    var k, r := n / SPACE, n % SPACE;
    assert n == SPACE * k + r;
    assert SPACE * (a - b - k) == (r - j) - (x - y);
  }

  lemma Residue(offset: nat, n: nat, j: nat)
    requires j < SPACE
    ensures WordAt(offset, n) == WordAt(offset, j) <==> n % SPACE == j
  {
    WordInjective(offset + n, offset + j);
    SameResidue(offset, n, j);
  }

  lemma HitsStep(offset: nat, n: nat, j: nat)
    requires j < SPACE
    ensures Hits(n + 1, j) == Hits(n, j) + (if WordAt(offset, n) == WordAt(offset, j) then 1 else 0)
  {
    Residue(offset, n, j);
    HitsNext(n, j);
  }

  /** How many of the first `n` words after `offset` are `w`. */
  ghost function Occurrences(offset: nat, n: nat, w: string): nat {
    if n == 0 then 0 else Occurrences(offset, n - 1, w) + (if WordAt(offset, n - 1) == w then 1 else 0)
  }

  lemma {:induction false} VocabularyOccurrences(offset: nat, n: nat, w: string)
    ensures multiset(Vocabulary(offset, n))[w] == Occurrences(offset, n, w)
  {
    if n == 0 {
      assert Vocabulary(offset, 0) == [];
    } else {
      VocabularyOccurrences(offset, n - 1, w);
      VocabularyNext(offset, n - 1);
      CountSnoc(Vocabulary(offset, n - 1), WordAt(offset, n - 1), w);
    }
  }

  lemma {:induction false} OccurrencesAreHits(offset: nat, n: nat, j: nat)
    requires j < SPACE
    ensures Occurrences(offset, n, WordAt(offset, j)) == Hits(n, j)
  {
    if n > 0 {
      OccurrencesAreHits(offset, n - 1, j);
      HitsStep(offset, n - 1, j);
    }
  }

  lemma VocabularyCount(offset: nat, n: nat, j: nat)
    requires j < SPACE
    ensures multiset(Vocabulary(offset, n))[WordAt(offset, j)] == Hits(n, j)
  {
    VocabularyOccurrences(offset, n, WordAt(offset, j));
    OccurrencesAreHits(offset, n, j);
  }

  lemma {:induction false} RepeatCount(words: seq<string>, k: nat, w: string)
    ensures multiset(Repeat(words, k))[w] == k * multiset(words)[w]
  {
    if k > 0 {
      RepeatCount(words, k - 1, w);
      assert k * multiset(words)[w] == (k - 1) * multiset(words)[w] + multiset(words)[w];
    }
  }

  /** The frequency of the word at index `j` in the whole text. */
  ghost function Frequency(numCw: nat, distinct: nat, freqCw: int, freqUcw: int, j: nat): int {
    (freqCw - freqUcw) * Hits(numCw, j) + freqUcw * Hits(distinct, j)
  }

  lemma WordListCount(offset: nat, distinct: nat, numCw: nat, freqCw: nat, freqUcw: nat, j: nat)
    requires numCw <= distinct && j < SPACE
    ensures multiset(WordList(offset, distinct, numCw, freqCw, freqUcw))[WordAt(offset, j)]
            == Frequency(numCw, distinct, freqCw, freqUcw, j)
  {
    VocabularyCount(offset, numCw, j);
    VocabularyCount(offset, distinct, j);
    VocabularyParts(offset, numCw, distinct);
    ListCount(Vocabulary(offset, distinct)[..numCw], Vocabulary(offset, distinct)[numCw..], freqCw, freqUcw,
              WordAt(offset, j), Hits(numCw, j), Hits(distinct, j));
  }

  lemma VocabularyParts(offset: nat, n: nat, distinct: nat)
    requires n <= distinct
    ensures Vocabulary(offset, distinct)[..n] == Vocabulary(offset, n)
    ensures Vocabulary(offset, distinct)[..n] + Vocabulary(offset, distinct)[n..] == Vocabulary(offset, distinct)
  {
  }

  /** A word found `a` times among the common and `d` times among all words. */
  lemma ListCount(common: seq<string>, uncommon: seq<string>, freqCw: nat, freqUcw: nat, w: string, a: nat, d: nat)
    requires multiset(common)[w] == a && multiset(common + uncommon)[w] == d
    ensures multiset(Repeat(common, freqCw) + Repeat(uncommon, freqUcw))[w] == (freqCw - freqUcw) * a + freqUcw * d
  {
    RepeatCount(common, freqCw, w);
    RepeatCount(uncommon, freqUcw, w);
    Regroup(freqCw, freqUcw, a, d);
  }

  lemma Regroup(cw: int, ucw: int, a: int, d: int)
    ensures cw * a + ucw * (d - a) == (cw - ucw) * a + ucw * d
  {
  }

  // ----- the answer key

  ghost predicate MostFrequent(words: seq<string>, w: string) {
    w in words && forall v :: v in words ==> multiset(words)[v] <= multiset(words)[w]
  }

  ghost predicate AnswersAreMostFrequent(words: seq<string>, answers: seq<string>) {
    forall w :: w in answers <==> MostFrequent(words, w)
  }

  /** Residues that get the extra word when `n` words are dealt out in turn. */
  function Edge(n: nat): nat { if n % SPACE == 0 then SPACE else n % SPACE }

  /**
   The caller's check: the vocabulary's last, partial lap around the word space must not end among the
   common words (and common words that themselves wrap around must do so without remainder).
   */
  predicate KeyFits(numCw: nat, distinct: nat) { Min(Edge(numCw), Edge(distinct)) == Min(numCw, SPACE) }

  lemma HitsEdge(n: nat, j: nat)
    requires j < SPACE
    ensures Hits(n, j) <= Hits(n, 0)
    ensures Hits(n, j) == Hits(n, 0) <==> j < Edge(n)
  {
  }

  lemma FrequencyOrder(numCw: nat, distinct: nat, freqCw: int, freqUcw: int, j: nat)
    requires ValidTask(numCw, freqCw, freqUcw) && j < SPACE
    ensures Frequency(numCw, distinct, freqCw, freqUcw, j) <= Frequency(numCw, distinct, freqCw, freqUcw, 0)
    ensures Frequency(numCw, distinct, freqCw, freqUcw, j) == Frequency(numCw, distinct, freqCw, freqUcw, 0)
            <==> j < Min(Edge(numCw), Edge(distinct))
  {
    HitsEdge(numCw, j);
    HitsEdge(distinct, j);
    var x, y := freqCw - freqUcw, freqUcw;
    var a, b := Hits(numCw, 0) - Hits(numCw, j), Hits(distinct, 0) - Hits(distinct, j);
    assert Frequency(numCw, distinct, freqCw, freqUcw, 0) - Frequency(numCw, distinct, freqCw, freqUcw, j) == x * a + y * b;
    assert x * a >= 0 && y * b >= 0;
    assert x * a == 0 <==> a == 0;
    assert y * b == 0 <==> b == 0;
  }

  lemma RepeatMembers(words: seq<string>, k: nat, w: string)
    requires k >= 1
    ensures w in Repeat(words, k) <==> w in words
  {
    RepeatCount(words, k, w);
    Product(k, multiset(words)[w]);
    assert w in Repeat(words, k) <==> w in multiset(Repeat(words, k));
    assert w in words <==> w in multiset(words);
  }

  /** `w` is one of the first `n` words after `offset`. */
  ghost predicate Among(offset: nat, n: nat, w: string) {
    exists j :: 0 <= j < Min(n, SPACE) && w == WordAt(offset, j)
  }

  lemma VocabularyMembers(offset: nat, n: nat, w: string)
    ensures w in Vocabulary(offset, n) <==> Among(offset, n, w)
  {
    var words := Vocabulary(offset, n);
    if w in words {
      var i :| 0 <= i < n && words[i] == w;
      Residue(offset, i, i % SPACE);
      assert w == WordAt(offset, i % SPACE);
    }
    if Among(offset, n, w) {
      var j :| 0 <= j < Min(n, SPACE) && w == WordAt(offset, j);
      assert words[j] == w;
    }
  }

  lemma ListMembers(offset: nat, distinct: nat, numCw: nat, freqCw: nat, freqUcw: nat, words: seq<string>, w: string)
    requires ValidTask(numCw, freqCw, freqUcw) && numCw < distinct
    requires multiset(words) == multiset(WordList(offset, distinct, numCw, freqCw, freqUcw))
    ensures w in words <==> Among(offset, distinct, w)
  {
    var vocabulary := Vocabulary(offset, distinct);
    SameMembers(words, WordList(offset, distinct, numCw, freqCw, freqUcw));
    RepeatMembers(vocabulary[..numCw], freqCw, w);
    RepeatMembers(vocabulary[numCw..], freqUcw, w);
    assert vocabulary == vocabulary[..numCw] + vocabulary[numCw..];
    VocabularyMembers(offset, distinct, w);
  }

  /** No word of the text is more frequent than the first; those before the nearer edge are as frequent. */
  lemma CountOrder(offset: nat, distinct: nat, numCw: nat, freqCw: nat, freqUcw: nat, words: seq<string>, j: nat)
    requires ValidTask(numCw, freqCw, freqUcw) && numCw < distinct && j < SPACE
    requires multiset(words) == multiset(WordList(offset, distinct, numCw, freqCw, freqUcw))
    ensures multiset(words)[WordAt(offset, j)] <= multiset(words)[WordAt(offset, 0)]
    ensures multiset(words)[WordAt(offset, j)] == multiset(words)[WordAt(offset, 0)]
            <==> j < Min(Edge(numCw), Edge(distinct))
  {
    WordListCount(offset, distinct, numCw, freqCw, freqUcw, j);
    WordListCount(offset, distinct, numCw, freqCw, freqUcw, 0);
    FrequencyOrder(numCw, distinct, freqCw, freqUcw, j);
  }

  lemma TopFrequency(offset: nat, distinct: nat, numCw: nat, freqCw: nat, freqUcw: nat, words: seq<string>, v: string)
    requires ValidTask(numCw, freqCw, freqUcw) && numCw < distinct && v in words
    requires multiset(words) == multiset(WordList(offset, distinct, numCw, freqCw, freqUcw))
    ensures multiset(words)[v] <= multiset(words)[WordAt(offset, 0)]
  {
    ListMembers(offset, distinct, numCw, freqCw, freqUcw, words, v);
    var i :| 0 <= i < Min(distinct, SPACE) && v == WordAt(offset, i);
    CountOrder(offset, distinct, numCw, freqCw, freqUcw, words, i);
  }

  lemma EdgeBound(n: nat)
    requires 1 <= n
    ensures 1 <= Edge(n) <= Min(n, SPACE)
  {
  }

  /** Among the words of the text, the most frequent ones are the first indices up to the nearer edge. */
  lemma MostFrequentPrefix(offset: nat, distinct: nat, numCw: nat, freqCw: nat, freqUcw: nat, words: seq<string>, j: nat)
    requires ValidTask(numCw, freqCw, freqUcw) && numCw < distinct && j < SPACE
    requires multiset(words) == multiset(WordList(offset, distinct, numCw, freqCw, freqUcw))
    ensures MostFrequent(words, WordAt(offset, j)) <==> j < Min(Edge(numCw), Edge(distinct))
  {
    var w, top := WordAt(offset, j), WordAt(offset, 0);
    EdgeBound(distinct);
    ListMembers(offset, distinct, numCw, freqCw, freqUcw, words, w);
    ListMembers(offset, distinct, numCw, freqCw, freqUcw, words, top);
    CountOrder(offset, distinct, numCw, freqCw, freqUcw, words, j);
    assert top in words;
    if j < Min(Edge(numCw), Edge(distinct)) {
      assert w in words;
      forall v | v in words ensures multiset(words)[v] <= multiset(words)[w] {
        TopFrequency(offset, distinct, numCw, freqCw, freqUcw, words, v);
      }
    }
  }

  lemma SmallVocabulary(numCw: nat, distinct: nat)
    requires 1 <= numCw < distinct <= SPACE
    ensures KeyFits(numCw, distinct)
  {
  }

  /** When the key does not fit, the word at the nearer of the two bounds is on one side only. */
  lemma Misfit(offset: nat, distinct: nat, numCw: nat, freqCw: nat, freqUcw: nat, words: seq<string>) returns (w: string)
    requires ValidTask(numCw, freqCw, freqUcw) && numCw < distinct && !KeyFits(numCw, distinct)
    requires multiset(words) == multiset(WordList(offset, distinct, numCw, freqCw, freqUcw))
    ensures w in Vocabulary(offset, numCw) <==> !MostFrequent(words, w)
  {
    EdgeBound(numCw);
    EdgeBound(distinct);
    var j := Min(Min(Edge(numCw), Edge(distinct)), Min(numCw, SPACE));
    w := WordAt(offset, j);
    MostFrequentPrefix(offset, distinct, numCw, freqCw, freqUcw, words, j);
    AnswerIndex(offset, numCw, j);
  }

  /** For every shuffle and every offset: the answer list is the set of most frequent words iff the key fits. */
  lemma AnswerKey(offset: nat, distinct: nat, numCw: nat, freqCw: nat, freqUcw: nat, words: seq<string>)
    requires ValidTask(numCw, freqCw, freqUcw) && numCw < distinct
    requires multiset(words) == multiset(WordList(offset, distinct, numCw, freqCw, freqUcw))
    ensures AnswersAreMostFrequent(words, Vocabulary(offset, numCw)) <==> KeyFits(numCw, distinct)
  {
    if KeyFits(numCw, distinct) {
      forall w ensures w in Vocabulary(offset, numCw) <==> MostFrequent(words, w) {
        KeyMember(offset, distinct, numCw, freqCw, freqUcw, words, w);
      }
    } else {
      var w := Misfit(offset, distinct, numCw, freqCw, freqUcw, words);
    }
  }

  lemma KeyMember(offset: nat, distinct: nat, numCw: nat, freqCw: nat, freqUcw: nat, words: seq<string>, w: string)
    requires ValidTask(numCw, freqCw, freqUcw) && numCw < distinct && KeyFits(numCw, distinct)
    requires multiset(words) == multiset(WordList(offset, distinct, numCw, freqCw, freqUcw))
    ensures w in Vocabulary(offset, numCw) <==> MostFrequent(words, w)
  {
    VocabularyMembers(offset, numCw, w);
    ListMembers(offset, distinct, numCw, freqCw, freqUcw, words, w);
    if Among(offset, distinct, w) {
      var j :| 0 <= j < Min(distinct, SPACE) && w == WordAt(offset, j);
      MostFrequentPrefix(offset, distinct, numCw, freqCw, freqUcw, words, j);
      AnswerIndex(offset, numCw, j);
    }
  }

  lemma AnswerIndex(offset: nat, numCw: nat, j: nat)
    requires j < SPACE
    ensures WordAt(offset, j) in Vocabulary(offset, numCw) <==> j < Min(numCw, SPACE)
  {
    VocabularyMembers(offset, numCw, WordAt(offset, j));
    if Among(offset, numCw, WordAt(offset, j)) {
      var i :| 0 <= i < Min(numCw, SPACE) && WordAt(offset, j) == WordAt(offset, i);
      if i != j {
        DistinctWords(offset, i, j);
      }
    }
  }

  lemma DistinctWords(offset: nat, i: nat, j: nat)
    requires i < SPACE && j < SPACE && i != j
    ensures WordAt(offset, i) != WordAt(offset, j)
  {
    Residue(offset, i, j);
  }

  /**
   With a key no longer than the word space, the check is that the last partial lap is empty or covers
   the key. Ten common words in one word more than the space fail it: the first is counted twice over.
   */
  lemma KeyFitsWithinSpace(numCw: nat, distinct: nat)
    requires 1 <= numCw <= SPACE && numCw < distinct
    ensures KeyFits(numCw, distinct) <==> distinct % SPACE == 0 || distinct % SPACE >= numCw
    ensures !KeyFits(10, SPACE + 1)
  {
  }
}
