/** The repetition test: multiset Dice similarity of adjacent word pairs. */
module Bigrams {

  type Word = string

  type Pair = (Word, Word)

  function Pairs(words: seq<Word>): multiset<Pair> {
    var n := |words| - 1;
    if n < 1 then multiset{} else Pairs(words[..n]) + multiset{(words[n - 1], words[n])}
  }

  lemma {:induction false} PairCount(words: seq<Word>)
    ensures |Pairs(words)| == if words == [] then 0 else |words| - 1
    decreases |words|
  {
    if |words| >= 2 {
      PairCount(words[..|words| - 1]);
    }
  }

  /** The shared part grows by a pair exactly when the other side still has one to spare. */
  lemma SharedGrows(a: multiset<Pair>, b: multiset<Pair>, p: Pair)
    ensures |a * (b + multiset{p})| == |a * b| + (if a[p] > b[p] then 1 else 0)
  {
    if a[p] > b[p] {
      assert a * (b + multiset{p}) == a * b + multiset{p};
    } else {
      assert a * (b + multiset{p}) == a * b;
    }
  }

  /** Counters that hold a multiset. */
  ghost predicate Counts(pairs: map<Pair, int>, m: multiset<Pair>) {
    forall p :: m[p] == if p in pairs then pairs[p] else 0
  }

  function Counter(pairs: map<Pair, int>, p: Pair): int {
    if p in pairs then pairs[p] else 0
  }

  lemma AddOne(pairs: map<Pair, int>, m: multiset<Pair>, p: Pair)
    requires Counts(pairs, m)
    ensures Counts(pairs[p := Counter(pairs, p) + 1], m + multiset{p})
  {
  }

  lemma TakeOne(pairs: map<Pair, int>, a: multiset<Pair>, b: multiset<Pair>, p: Pair)
    requires Counts(pairs, a - b)
    ensures Counter(pairs, p) > 0 <==> a[p] > b[p]
    ensures Counts(if Counter(pairs, p) > 0 then pairs[p := Counter(pairs, p) - 1] else pairs, a - (b + multiset{p}))
  {
  }

  lemma NextPair(words: seq<Word>, i: nat)
    requires 1 <= i < |words|
    ensures Pairs(words[..i + 1]) == Pairs(words[..i]) + multiset{(words[i - 1], words[i])}
  {
    assert words[..i + 1][..i] == words[..i];
  }

  method CountPairs(words: seq<Word>) returns (pairs: map<Pair, int>)
    requires |words| >= 1
    ensures Counts(pairs, Pairs(words))
  {
    hide Counts, Pairs;
    pairs := map[];
    NoPairs(words);
    for i := 1 to |words|
      invariant Counts(pairs, Pairs(words[..i]))
    {
      var pair := (words[i - 1], words[i]);
      AddOne(pairs, Pairs(words[..i]), pair);
      NextPair(words, i);
      pairs := pairs[pair := Counter(pairs, pair) + 1];
    }
    assert words[..|words|] == words;
  }

  lemma NoPairs(words: seq<Word>)
    requires |words| >= 1
    ensures Pairs(words[..1]) == multiset{} && Counts(map[], multiset{})
  {
  }

  /** The size of the multiset intersection, with one counter per pair. */
  method SharedPairs(a: seq<Word>, b: seq<Word>) returns (shared: nat)
    requires |a| >= 1 && |b| >= 1
    ensures shared == |Pairs(a) * Pairs(b)|
  {
    hide Counts, Pairs;
    var pairs := CountPairs(a);
    NoPairs(b);
    shared := 0;
    assert Pairs(a) - multiset{} == Pairs(a) && Pairs(a) * multiset{} == multiset{};
    for i := 1 to |b|
      invariant shared == |Pairs(a) * Pairs(b[..i])|
      invariant Counts(pairs, Pairs(a) - Pairs(b[..i]))
    {
      var pair := (b[i - 1], b[i]);
      SharedGrows(Pairs(a), Pairs(b[..i]), pair);
      TakeOne(pairs, Pairs(a), Pairs(b[..i]), pair);
      NextPair(b, i);
      if Counter(pairs, pair) > 0 {
        shared := shared + 1;
        pairs := pairs[pair := Counter(pairs, pair) - 1];
      }
    }
    assert b[..|b|] == b;
  }

  /** The Dice coefficient of two texts' adjacent word pairs. */
  function Dice(a: seq<Word>, b: seq<Word>): real
    requires |Pairs(a)| + |Pairs(b)| > 0
  {
    2.0 * |Pairs(a) * Pairs(b)| as real / (|Pairs(a)| + |Pairs(b)|) as real
  }

  ghost predicate Repeats(a: seq<Word>, b: seq<Word>) {
    |a| >= 8 && |b| >= 8 && |Pairs(a)| + |Pairs(b)| > 0 && Dice(a, b) >= 0.8
  }

  /** Texts repeat exactly when both have eight words and their Dice similarity is at least four fifths. */
  method Similar(a: seq<Word>, b: seq<Word>) returns (similar: bool)
    ensures similar <==> Repeats(a, b)
  {
    if |a| < 8 || |b| < 8 {
      return false;
    }
    var shared := SharedPairs(a, b);
    PairCount(a);
    PairCount(b);
    Threshold(shared, |a| + |b| - 2);
    similar := 10 * shared >= 4 * (|a| + |b| - 2);
  }

  lemma Threshold(shared: nat, total: nat)
    requires total > 0
    ensures 10 * shared >= 4 * total <==> 2.0 * shared as real / total as real >= 0.8
  {
    var s, t := shared as real, total as real;
    var q := 2.0 * s / t;
    assert q * t == 2.0 * s;
    Scaled(q, 0.8, t);
    assert 10 * shared >= 4 * total <==> 10.0 * s >= 4.0 * t;
  }

  lemma Scaled(p: real, q: real, t: real)
    requires t > 0.0
    ensures p >= q <==> p * t >= q * t
  {
  }

  /** The verdict does not depend on which text is the earlier one. */
  lemma Symmetric(a: seq<Word>, b: seq<Word>)
    ensures Repeats(a, b) <==> Repeats(b, a)
  {
    assert Pairs(a) * Pairs(b) == Pairs(b) * Pairs(a);
  }

  /** A text of eight words repeats itself. */
  lemma SelfRepeats(a: seq<Word>)
    requires |a| >= 8
    ensures |Pairs(a)| + |Pairs(a)| > 0 && Dice(a, a) == 1.0 && Repeats(a, a)
  {
    PairCount(a);
    assert Pairs(a) * Pairs(a) == Pairs(a);
    Whole((|a| - 1) as real);
  }

  lemma Whole(x: real)
    requires x > 0.0
    ensures 2.0 * x / (x + x) == 1.0
  {
  }
}
