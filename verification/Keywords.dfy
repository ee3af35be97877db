/** Keyword extraction: the most frequent words of a text, ties in the order of their first occurrence. */
module Keywords {

  const MIN_KEYWORD_LENGTH: nat := 2
  const MAX_KEYWORDS_PER_DOC: nat := 50

  /** Lower-casing and splitting into words is left abstract, and so is the list of stop words. */
  datatype Language = Language(words: string -> seq<string>, stopWords: set<string>)

  predicate Eligible(stop: set<string>, w: string) {
    |w| >= MIN_KEYWORD_LENGTH && w !in stop
  }

  /** The keys of the frequency dict, in insertion order. */
  function Order(words: seq<string>, stop: set<string>): seq<string> {
    if words == [] then []
    else
      var o := Order(words[..|words| - 1], stop);
      var w := words[|words| - 1];
      if Eligible(stop, w) && w !in o then o + [w] else o
  }

  function Frequency(words: seq<string>): string -> nat {
    w => multiset(words)[w]
  }

  /** One step of a stable sort by decreasing frequency: w goes behind everything at least as frequent. */
  function InsertRanked(ranked: seq<string>, w: string, f: string -> nat): seq<string> {
    if ranked == [] || f(ranked[|ranked| - 1]) >= f(w) then ranked + [w]
    else InsertRanked(ranked[..|ranked| - 1], w, f) + [ranked[|ranked| - 1]]
  }

  /** sorted(..., key=f, reverse=True), which is stable. */
  function Rank(order: seq<string>, f: string -> nat): seq<string> {
    if order == [] then [] else InsertRanked(Rank(order[..|order| - 1], f), order[|order| - 1], f)
  }

  function Take(xs: seq<string>, n: nat): seq<string> {
    if |xs| <= n then xs else xs[..n]
  }

  function KeywordsOf(words: seq<string>, stop: set<string>, max: nat): seq<string> {
    Take(Rank(Order(words, stop), Frequency(words)), max)
  }

  /** extract_keywords. */
  method ExtractKeywords(lang: Language, text: string, max: nat) returns (keywords: seq<string>)
    ensures keywords == KeywordsOf(lang.words(text), lang.stopWords, max)
  {
    var words := lang.words(text);
    var order: seq<string> := [];
    var freq: map<string, nat> := map[];
    for i := 0 to |words|
      invariant order == Order(words[..i], lang.stopWords)
      invariant freq.Keys == set w | w in order
      invariant forall w | w in order :: Eligible(lang.stopWords, w) && freq[w] == multiset(words[..i])[w]
      invariant forall w | w in words[..i] && Eligible(lang.stopWords, w) :: w in order
    {
      var w := words[i];
      assert words[..i + 1] == words[..i] + [w];
      if |w| < MIN_KEYWORD_LENGTH {
        continue;
      }
      if w in lang.stopWords {
        continue;
      }
      if w in freq {
        freq := freq[w := freq[w] + 1];
      } else {
        NotYetCounted(words[..i], w);
        order := order + [w];
        freq := freq[w := 1];
      }
    }
    assert words[..|words|] == words;
    SameRank(order, w => if w in freq then freq[w] else 0, Frequency(words));
    var ranked := Rank(order, w => if w in freq then freq[w] else 0);
    keywords := Take(ranked, max);
  }

  lemma NotYetCounted(words: seq<string>, w: string)
    requires w !in words
    ensures multiset(words)[w] == 0
  {
  }

  // ---- The ranking ------------------------------------------------------------------------------------------

  lemma {:induction false} InsertedElements(ranked: seq<string>, w: string, f: string -> nat)
    ensures multiset(InsertRanked(ranked, w, f)) == multiset(ranked) + multiset{w}
    ensures forall x :: x in InsertRanked(ranked, w, f) <==> x in ranked || x == w
  {
    if ranked == [] || f(ranked[|ranked| - 1]) >= f(w) {
    } else {
      var init, last := ranked[..|ranked| - 1], ranked[|ranked| - 1];
      InsertedElements(init, w, f);
      assert ranked == init + [last];
    }
  }

  lemma {:induction false} RankedElements(order: seq<string>, f: string -> nat)
    ensures multiset(Rank(order, f)) == multiset(order)
    ensures forall x :: x in Rank(order, f) <==> x in order
    ensures |Rank(order, f)| == |order|
  {
    if order != [] {
      var init, last := order[..|order| - 1], order[|order| - 1];
      RankedElements(init, f);
      InsertedElements(Rank(init, f), last, f);
      assert order == init + [last];
    }
    assert |Rank(order, f)| == |multiset(Rank(order, f))| == |order|;
  }

  lemma {:induction false} SameInsert(ranked: seq<string>, w: string, f: string -> nat, g: string -> nat)
    requires f(w) == g(w) && forall x | x in ranked :: f(x) == g(x)
    ensures InsertRanked(ranked, w, f) == InsertRanked(ranked, w, g)
  {
    if ranked != [] {
      SameInsert(ranked[..|ranked| - 1], w, f, g);
    }
  }

  lemma {:induction false} SameRank(order: seq<string>, f: string -> nat, g: string -> nat)
    requires forall x | x in order :: f(x) == g(x)
    ensures Rank(order, f) == Rank(order, g)
  {
    if order != [] {
      var init := order[..|order| - 1];
      SameRank(init, f, g);
      RankedElements(init, f);
      SameInsert(Rank(init, f), order[|order| - 1], f, g);
    }
  }

  /** Whether a comes before b in a list. */
  predicate Earlier(order: seq<string>, a: string, b: string) {
    exists i, j :: 0 <= i < j < |order| && order[i] == a && order[j] == b
  }

  /** a is more frequent than b, or as frequent and met first. */
  predicate Ahead(order: seq<string>, f: string -> nat, a: string, b: string) {
    f(a) > f(b) || (f(a) == f(b) && Earlier(order, a, b))
  }

  predicate Ranked(order: seq<string>, f: string -> nat, r: seq<string>) {
    forall i, j | 0 <= i < j < |r| :: Ahead(order, f, r[i], r[j])
  }

  lemma {:induction false} InsertKeepsRanked(order: seq<string>, f: string -> nat, r: seq<string>, w: string)
    requires Ranked(order, f, r) && forall x | x in r && f(x) == f(w) :: Earlier(order, x, w)
    ensures Ranked(order, f, InsertRanked(r, w, f))
  {
    if r == [] {
    } else if f(r[|r| - 1]) >= f(w) {
      var n := |r| - 1;
      forall i | 0 <= i <= n ensures Ahead(order, f, r[i], w) {
        assert r[i] in r;
        if i < n {
          assert Ahead(order, f, r[i], r[n]);
        }
      }
    } else {
      var init, last := r[..|r| - 1], r[|r| - 1];
      InsertKeepsRanked(order, f, init, w);
      InsertedElements(init, w, f);
      var front := InsertRanked(init, w, f);
      forall i | 0 <= i < |front| ensures Ahead(order, f, front[i], last) {
        assert front[i] in front;
        if front[i] != w {
          var k :| 0 <= k < |init| && init[k] == front[i];
          assert Ahead(order, f, r[k], r[|r| - 1]);
        }
      }
    }
  }

  lemma EarlierGrows(order: seq<string>, w: string, f: string -> nat, r: seq<string>)
    requires Ranked(order, f, r)
    ensures Ranked(order + [w], f, r)
    ensures forall x | x in order :: Earlier(order + [w], x, w)
  {
    var more := order + [w];
    forall a, b | Earlier(order, a, b) ensures Earlier(more, a, b) {
      var i, j :| 0 <= i < j < |order| && order[i] == a && order[j] == b;
      assert more[i] == a && more[j] == b;
    }
    forall x | x in order ensures Earlier(more, x, w) {
      var i :| 0 <= i < |order| && order[i] == x;
      assert more[i] == x && more[|order|] == w;
    }
  }

  lemma {:induction false} RankIsRanked(order: seq<string>, f: string -> nat)
    ensures Ranked(order, f, Rank(order, f))
  {
    if order != [] {
      var init, last := order[..|order| - 1], order[|order| - 1];
      RankIsRanked(init, f);
      RankedElements(init, f);
      EarlierGrows(init, last, f, Rank(init, f));
      assert order == init + [last];
      InsertKeepsRanked(order, f, Rank(init, f), last);
    }
  }

  predicate NoRepeats(xs: seq<string>) {
    forall i, j | 0 <= i < j < |xs| :: xs[i] != xs[j]
  }

  lemma {:induction false} OrderLists(words: seq<string>, stop: set<string>)
    ensures NoRepeats(Order(words, stop))
    ensures forall w :: w in Order(words, stop) <==> w in words && Eligible(stop, w)
  {
    if words != [] {
      OrderLists(words[..|words| - 1], stop);
      assert words == words[..|words| - 1] + [words[|words| - 1]];
    }
  }

  lemma TopIsAhead(order: seq<string>, f: string -> nat, r: seq<string>, n: nat, k: string, w: string)
    requires Ranked(order, f, r) && w in r && w !in Take(r, n) && k in Take(r, n)
    ensures Ahead(order, f, k, w)
  {
    var t := Take(r, n);
    var rest := r[|t|..];
    assert r == t + rest;
    var j :| 0 <= j < |rest| && rest[j] == w;
    var i :| 0 <= i < |t| && t[i] == k;
    assert Ahead(order, f, r[i], r[|t| + j]);
  }

  lemma TakeKeepsRanked(order: seq<string>, f: string -> nat, r: seq<string>, n: nat)
    requires Ranked(order, f, r) && NoRepeats(order)
    ensures Ranked(order, f, Take(r, n)) && NoRepeats(Take(r, n))
    ensures forall k | k in Take(r, n) :: k in r
  {
    var t := Take(r, n);
    forall i, j | 0 <= i < j < |t| ensures Ahead(order, f, t[i], t[j]) && t[i] != t[j] {
      assert Ahead(order, f, r[i], r[j]);
    }
  }

  /** Words come in the order in which they are first met. */
  lemma {:induction false} FirstMet(words: seq<string>, stop: set<string>, a: string, b: string)
    requires Earlier(Order(words, stop), a, b)
    ensures exists p :: 0 <= p < |words| && words[p] == a && b !in words[..p]
  {
    var init, last := words[..|words| - 1], words[|words| - 1];
    OrderLists(init, stop);
    if Earlier(Order(init, stop), a, b) {
      FirstMet(init, stop, a, b);
      var p :| 0 <= p < |init| && init[p] == a && b !in init[..p];
      assert words[p] == a && words[..p] == init[..p];
    } else {
      assert a in Order(init, stop);
      var p :| 0 <= p < |init| && init[p] == a;
      assert words[p] == a && words[..p] == init[..p] && b !in init;
    }
  }

  /** The word a occurs more often than b in the text, or as often and first. */
  ghost predicate IsAhead(words: seq<string>, a: string, b: string) {
    multiset(words)[a] > multiset(words)[b]
    || (multiset(words)[a] == multiset(words)[b] && exists p :: 0 <= p < |words| && words[p] == a && b !in words[..p])
  }

  lemma AheadInText(words: seq<string>, stop: set<string>, a: string, b: string)
    requires Ahead(Order(words, stop), Frequency(words), a, b)
    ensures IsAhead(words, a, b)
  {
    if Earlier(Order(words, stop), a, b) {
      FirstMet(words, stop, a, b);
    }
  }

  lemma NoRepeatsCount(xs: seq<string>, all: set<string>)
    requires NoRepeats(xs) && forall x :: x in xs <==> x in all
    ensures |xs| == |all|
    decreases |xs|
  {
    if xs == [] {
      assert all == {};
    } else {
      var init, last := xs[..|xs| - 1], xs[|xs| - 1];
      assert xs == init + [last];
      NoRepeatsCount(init, all - {last});
    }
  }

  /** The extracted keywords are the top of a ranking of the words of two and more characters that are no stop words:
      the more frequent ahead, of equally frequent ones the one met first; as many as asked for or as there are, in
      order, and every such word left out ranks behind all of them. */
  lemma ExtractsTop(words: seq<string>, stop: set<string>, max: nat)
    ensures var all, ks := (set w | w in words && |w| >= 2 && w !in stop), KeywordsOf(words, stop, max);
            && (forall k | k in ks :: k in all)
            && (forall i, j | 0 <= i < j < |ks| :: ks[i] != ks[j] && IsAhead(words, ks[i], ks[j]))
            && |ks| == (if |all| < max then |all| else max)
            && (forall w, k | w in all && w !in ks && k in ks :: IsAhead(words, k, w))
  {
    var all, ks := (set w | w in words && |w| >= 2 && w !in stop), KeywordsOf(words, stop, max);
    var order, f := Order(words, stop), Frequency(words);
    RankedTop(words, stop, max);
    OrderLists(words, stop);
    NoRepeatsCount(order, all);
    forall a, b | Ahead(order, f, a, b) ensures IsAhead(words, a, b) {
      AheadInText(words, stop, a, b);
    }
  }

  lemma RankedTop(words: seq<string>, stop: set<string>, max: nat)
    ensures var order, f, ks := Order(words, stop), Frequency(words), KeywordsOf(words, stop, max);
            && Ranked(order, f, ks) && NoRepeats(ks)
            && |ks| == (if |order| < max then |order| else max)
            && (forall k | k in ks :: k in words && Eligible(stop, k))
            && (forall w, k | w in words && Eligible(stop, w) && w !in ks && k in ks :: Ahead(order, f, k, w))
  {
    var order, f := Order(words, stop), Frequency(words);
    var r, ks := Rank(order, f), KeywordsOf(words, stop, max);
    OrderLists(words, stop);
    RankIsRanked(order, f);
    RankedElements(order, f);
    TakeKeepsRanked(order, f, r, max);
    forall w, k | w in words && Eligible(stop, w) && w !in ks && k in ks ensures Ahead(order, f, k, w) {
      TopIsAhead(order, f, r, max, k, w);
    }
  }
}
