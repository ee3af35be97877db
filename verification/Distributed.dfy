/** The distributed index: documents published under their keywords, and queried by keyword. */
module Distributed {
  import opened Common
  import opened Keywords

  const MAX_POINTERS_PER_KEYWORD: nat := 100

  datatype Pointer = Pointer(peerId: string, docId: int, url: string, score: real, title: string)

  datatype Key = Key(peerId: string, docId: int)

  function KeyOf(p: Pointer): Key {
    Key(p.peerId, p.docId)
  }

  datatype Doc = Doc(docId: int, url: string, title: string, text: string, score: real)

  /** The pointers stored under each keyword; every put and get succeeds. */
  type Dht = map<string, seq<Pointer>>

  function At(dht: Dht, kw: string): seq<Pointer> {
    if kw in dht then dht[kw] else []
  }

  // ---- Publishing -------------------------------------------------------------------------------------------

  function PointerTo(peerId: string, d: Doc): Pointer {
    Pointer(peerId, d.docId, d.url, d.score, d.title)
  }

  function DocKeywords(lang: Language, d: Doc): seq<string> {
    KeywordsOf(lang.words(d.text), lang.stopWords, MAX_KEYWORDS_PER_DOC)
  }

  predicate IsValid(d: Doc) {
    d.docId > 0 && d.url != "" && d.text != ""
  }

  function HasKeyword(lang: Language, kw: string): Doc -> bool {
    (d: Doc) => IsValid(d) && kw in DocKeywords(lang, d)
  }

  /** The pointers collected for a keyword: those of the first hundred documents that have it. */
  function Collected(has: Doc -> bool, peerId: string, docs: seq<Doc>): seq<Pointer> {
    if docs == [] then []
    else
      var ps := Collected(has, peerId, docs[..|docs| - 1]);
      var d := docs[|docs| - 1];
      if has(d) && |ps| < MAX_POINTERS_PER_KEYWORD then ps + [PointerTo(peerId, d)] else ps
  }

  predicate HasKey(ps: seq<Pointer>, k: Key) {
    exists p | p in ps :: KeyOf(p) == k
  }

  /** _merge_pointers: the first pointer of each key, up to the limit. */
  function Merge(merged: seq<Pointer>, ps: seq<Pointer>, limit: nat): seq<Pointer>
    decreases |ps|
  {
    if ps == [] then merged
    else
      var next := if HasKey(merged, KeyOf(ps[0])) then merged else merged + [ps[0]];
      if |next| >= limit then next else Merge(next, ps[1..], limit)
  }

  /** publish_keyword. */
  function PublishKeyword(dht: Dht, kw: string, ps: seq<Pointer>): Dht {
    dht[kw := Merged(ps, At(dht, kw))]
  }

  /** What publish_batch leaves under each keyword. */
  ghost predicate IsPublished(lang: Language, peerId: string, docs: seq<Doc>, before: Dht, after: Dht) {
    forall kw :: At(after, kw) == Stored(Collected(HasKeyword(lang, kw), peerId, docs), At(before, kw))
  }

  function Merged(ps: seq<Pointer>, existing: seq<Pointer>): seq<Pointer> {
    Merge([], ps + existing, MAX_POINTERS_PER_KEYWORD)
  }

  function Stored(ps: seq<Pointer>, existing: seq<Pointer>): seq<Pointer> {
    if ps == [] then existing else Merged(ps, existing)
  }

  // ---- Querying ---------------------------------------------------------------------------------------------

  function WithKey(k: Key): Pointer -> bool {
    (p: Pointer) => KeyOf(p) == k
  }

  /** The position of a key in a list of pointers, or its length. */
  function Find(acc: seq<Pointer>, k: Key): nat {
    IndexWhere(acc, WithKey(k))
  }

  /** One pointer of the answer to a keyword. */
  function Accumulate(acc: seq<Pointer>, p: Pointer): seq<Pointer> {
    var i := Find(acc, KeyOf(p));
    if i < |acc| then acc[i := acc[i].(score := acc[i].score + p.score)] else acc + [p]
  }

  function AccumulateAll(ps: seq<Pointer>): seq<Pointer> {
    if ps == [] then [] else Accumulate(AccumulateAll(ps[..|ps| - 1]), ps[|ps| - 1])
  }

  /** The answers to the keywords, one after the other. */
  function Answers(dht: Dht, kws: seq<string>): seq<Pointer> {
    if kws == [] then [] else Answers(dht, kws[..|kws| - 1]) + At(dht, kws[|kws| - 1])
  }

  /** One step of a stable sort by decreasing score. */
  function InsertByScore(ranked: seq<Pointer>, p: Pointer): seq<Pointer> {
    if ranked == [] || ranked[|ranked| - 1].score >= p.score then ranked + [p]
    else InsertByScore(ranked[..|ranked| - 1], p) + [ranked[|ranked| - 1]]
  }

  function RankByScore(ps: seq<Pointer>): seq<Pointer> {
    if ps == [] then [] else InsertByScore(RankByScore(ps[..|ps| - 1]), ps[|ps| - 1])
  }

  function Query(dht: Dht, kws: seq<string>): seq<Pointer> {
    RankByScore(AccumulateAll(Answers(dht, kws)))
  }

  // ---- The ranking by score ---------------------------------------------------------------------------------

  predicate ByScore(ps: seq<Pointer>) {
    forall i, j | 0 <= i < j < |ps| :: ps[i].score >= ps[j].score
  }

  lemma {:induction false} InsertedElements(ranked: seq<Pointer>, p: Pointer)
    ensures multiset(InsertByScore(ranked, p)) == multiset(ranked) + multiset{p}
    ensures forall x :: x in InsertByScore(ranked, p) <==> x in ranked || x == p
  {
    if ranked == [] || ranked[|ranked| - 1].score >= p.score {
    } else {
      var init, last := ranked[..|ranked| - 1], ranked[|ranked| - 1];
      InsertedElements(init, p);
      assert ranked == init + [last];
    }
  }

  lemma {:induction false} InsertSorts(ranked: seq<Pointer>, p: Pointer)
    requires ByScore(ranked)
    ensures ByScore(InsertByScore(ranked, p))
  {
    if ranked != [] && ranked[|ranked| - 1].score < p.score {
      var init, last := ranked[..|ranked| - 1], ranked[|ranked| - 1];
      InsertSorts(init, p);
      InsertedElements(init, p);
      var front := InsertByScore(init, p);
      forall i | 0 <= i < |front| ensures front[i].score >= last.score {
        assert front[i] in front;
      }
    }
  }

  lemma {:induction false} RankElements(ps: seq<Pointer>)
    ensures multiset(RankByScore(ps)) == multiset(ps)
  {
    hide InsertByScore;
    if ps != [] {
      var init, last := ps[..|ps| - 1], ps[|ps| - 1];
      RankElements(init);
      InsertedElements(RankByScore(init), last);
      assert multiset(RankByScore(ps)) == multiset(init) + multiset{last};
      assert ps == init + [last];
    }
  }

  lemma {:induction false} RankSorts(ps: seq<Pointer>)
    ensures ByScore(RankByScore(ps))
  {
    if ps != [] {
      RankSorts(ps[..|ps| - 1]);
      InsertSorts(RankByScore(ps[..|ps| - 1]), ps[|ps| - 1]);
    }
  }

  // ---- The accumulated scores -------------------------------------------------------------------------------

  predicate DistinctKeys(ps: seq<Pointer>) {
    forall i, j | 0 <= i < j < |ps| :: KeyOf(ps[i]) != KeyOf(ps[j])
  }

  function Times(ps: seq<Pointer>, k: Key): nat {
    if ps == [] then 0 else Times(ps[..|ps| - 1], k) + if KeyOf(ps[|ps| - 1]) == k then 1 else 0
  }

  lemma TimesPush(ps: seq<Pointer>, p: Pointer, k: Key)
    ensures Times(ps + [p], k) == Times(ps, k) + if KeyOf(p) == k then 1 else 0
  {
    assert (ps + [p])[..|ps|] == ps;
  }

  lemma {:induction false} TimesConcat(ps: seq<Pointer>, qs: seq<Pointer>, k: Key)
    ensures Times(ps + qs, k) == Times(ps, k) + Times(qs, k)
  {
    if qs == [] {
      assert ps + qs == ps;
    } else {
      var init, last := qs[..|qs| - 1], qs[|qs| - 1];
      TimesConcat(ps, init, k);
      assert ps + qs == (ps + init) + [last];
      TimesPush(ps + init, last, k);
    }
  }

  /** Every pointer of the peer in the list is the pointer `of` gives for its key. */
  ghost predicate AllFrom(peerId: string, of: Key -> Pointer, ps: seq<Pointer>) {
    forall p | p in ps && p.peerId == peerId :: of(KeyOf(p)) == p
  }

  /** A score added to itself n times. */
  function Repeated(score: real, n: nat): real {
    if n == 0 then 0.0 else Repeated(score, n - 1) + score
  }

  lemma OneMore(score: real, n: real)
    ensures score * (n + 1.0) == score * n + score
  {
  }

  lemma {:induction false} RepeatedIsProduct(score: real, n: nat)
    ensures Repeated(score, n) == score * n as real
  {
    if n > 0 {
      RepeatedIsProduct(score, n - 1);
      OneMore(score, (n - 1) as real);
    }
  }

  function Weighted(p: Pointer, n: nat): Pointer {
    p.(score := Repeated(p.score, n))
  }

  predicate SumsAt(of: Key -> Pointer, ps: seq<Pointer>, x: Pointer) {
    Times(ps, KeyOf(x)) > 0 && x == Weighted(of(KeyOf(x)), Times(ps, KeyOf(x)))
  }

  /** Each key met is in the accumulated list, once; those of the peer with their score taken as often as they were
      met. */
  ghost predicate Sums(peerId: string, of: Key -> Pointer, ps: seq<Pointer>, acc: seq<Pointer>) {
    && DistinctKeys(acc)
    && (forall i | 0 <= i < |acc| && acc[i].peerId == peerId :: SumsAt(of, ps, acc[i]))
    && (forall k | Times(ps, k) > 0 :: HasKey(acc, k))
  }

  lemma FoundKey(acc: seq<Pointer>, k: Key)
    ensures Find(acc, k) < |acc| <==> HasKey(acc, k)
  {
    if Find(acc, k) < |acc| {
      assert acc[Find(acc, k)] in acc;
    }
  }

  lemma WeightedMore(q: Pointer, n: nat)
    ensures Weighted(q, n).(score := Weighted(q, n).score + q.score) == Weighted(q, n + 1)
  {
  }

  lemma RaiseKeeps(acc: seq<Pointer>, i: nat, q: Pointer)
    requires i < |acc| && DistinctKeys(acc) && KeyOf(q) == KeyOf(acc[i])
    ensures DistinctKeys(acc[i := q])
    ensures forall j | 0 <= j < |acc| && j != i :: KeyOf(acc[j]) != KeyOf(q)
  {
  }

  lemma SumsAtRaised(of: Key -> Pointer, ps: seq<Pointer>, x: Pointer, p: Pointer)
    requires SumsAt(of, ps, x) && of(KeyOf(p)) == p && KeyOf(x) == KeyOf(p)
    ensures SumsAt(of, ps + [p], x.(score := x.score + p.score))
  {
    TimesPush(ps, p, KeyOf(p));
    WeightedMore(p, Times(ps, KeyOf(p)));
  }

  lemma SumsAtOther(of: Key -> Pointer, ps: seq<Pointer>, x: Pointer, p: Pointer)
    requires SumsAt(of, ps, x) && KeyOf(x) != KeyOf(p)
    ensures SumsAt(of, ps + [p], x)
  {
    TimesPush(ps, p, KeyOf(x));
  }

  lemma AccumulateCovers(ps: seq<Pointer>, acc: seq<Pointer>, p: Pointer, k: Key)
    requires forall k | Times(ps, k) > 0 :: HasKey(acc, k)
    requires Times(ps + [p], k) > 0
    ensures HasKey(Accumulate(acc, p), k)
  {
    TimesPush(ps, p, k);
    AccumulateKeys(acc, p);
  }

  lemma RaisedSums(of: Key -> Pointer, ps: seq<Pointer>, acc: seq<Pointer>, p: Pointer, i: nat, j: nat)
    requires i < |acc| && j < |acc| && DistinctKeys(acc) && KeyOf(acc[i]) == KeyOf(p)
    requires SumsAt(of, ps, acc[j]) && (i == j ==> of(KeyOf(p)) == p)
    ensures SumsAt(of, ps + [p], acc[i := acc[i].(score := acc[i].score + p.score)][j])
  {
    if i == j {
      SumsAtRaised(of, ps, acc[i], p);
    } else {
      SumsAtOther(of, ps, acc[j], p);
    }
  }

  lemma AccumulateFound(peerId: string, of: Key -> Pointer, ps: seq<Pointer>, acc: seq<Pointer>, p: Pointer, i: nat)
    requires Sums(peerId, of, ps, acc) && (p.peerId == peerId ==> of(KeyOf(p)) == p) && i == Find(acc, KeyOf(p)) < |acc|
    ensures Sums(peerId, of, ps + [p], Accumulate(acc, p))
  {
    var acc' := Accumulate(acc, p);
    RaiseKeeps(acc, i, acc'[i]);
    forall j: nat | j < |acc| && acc'[j].peerId == peerId ensures SumsAt(of, ps + [p], acc'[j]) {
      RaisedSums(of, ps, acc, p, i, j);
    }
    forall k | Times(ps + [p], k) > 0 ensures HasKey(acc', k) {
      AccumulateCovers(ps, acc, p, k);
    }
  }

  lemma NewKeyDistinct(acc: seq<Pointer>, p: Pointer)
    requires DistinctKeys(acc) && Find(acc, KeyOf(p)) == |acc|
    ensures DistinctKeys(acc + [p]) && Accumulate(acc, p) == acc + [p]
  {
  }

  lemma SumsAtNew(of: Key -> Pointer, ps: seq<Pointer>, p: Pointer)
    requires of(KeyOf(p)) == p && Times(ps, KeyOf(p)) == 0
    ensures SumsAt(of, ps + [p], p)
  {
    TimesPush(ps, p, KeyOf(p));
    RepeatedOnce(p);
  }

  lemma AccumulateNew(peerId: string, of: Key -> Pointer, ps: seq<Pointer>, acc: seq<Pointer>, p: Pointer)
    requires Sums(peerId, of, ps, acc) && (p.peerId == peerId ==> of(KeyOf(p)) == p) && Find(acc, KeyOf(p)) == |acc|
    ensures Sums(peerId, of, ps + [p], Accumulate(acc, p))
  {
    FoundKey(acc, KeyOf(p));
    NewKeyDistinct(acc, p);
    if p.peerId == peerId {
      SumsAtNew(of, ps, p);
    }
    forall j: nat | j < |acc| && acc[j].peerId == peerId ensures SumsAt(of, ps + [p], acc[j]) {
      SumsAtOther(of, ps, acc[j], p);
    }
    forall k | Times(ps + [p], k) > 0 ensures HasKey(Accumulate(acc, p), k) {
      AccumulateCovers(ps, acc, p, k);
    }
  }

  lemma RepeatedOnce(p: Pointer)
    ensures Weighted(p, 1) == p
  {
    assert Repeated(p.score, 0) == 0.0;
  }

  lemma AccumulateKeys(acc: seq<Pointer>, p: Pointer)
    ensures forall k :: HasKey(Accumulate(acc, p), k) <==> HasKey(acc, k) || k == KeyOf(p)
  {
    var i := Find(acc, KeyOf(p));
    var acc' := Accumulate(acc, p);
    assert forall j | 0 <= j < |acc| :: KeyOf(acc'[j]) == KeyOf(acc[j]);
    forall k | HasKey(acc, k) || k == KeyOf(p) ensures HasKey(acc', k) {
      if k == KeyOf(p) {
        assert acc'[i] in acc' && KeyOf(acc'[i]) == k;
      } else {
        var j :| 0 <= j < |acc| && KeyOf(acc[j]) == k;
        assert acc'[j] in acc';
      }
    }
    forall k | HasKey(acc', k) ensures HasKey(acc, k) || k == KeyOf(p) {
      var j :| 0 <= j < |acc'| && KeyOf(acc'[j]) == k;
      if j < |acc| {
        assert acc[j] in acc;
      }
    }
  }

  lemma {:induction false} AccumulatedSums(peerId: string, of: Key -> Pointer, ps: seq<Pointer>)
    requires AllFrom(peerId, of, ps)
    ensures Sums(peerId, of, ps, AccumulateAll(ps))
  {
    if ps != [] {
      var init, last := ps[..|ps| - 1], ps[|ps| - 1];
      AccumulatedSums(peerId, of, init);
      assert ps == init + [last];
      var acc := AccumulateAll(init);
      if Find(acc, KeyOf(last)) < |acc| {
        AccumulateFound(peerId, of, init, acc, last, Find(acc, KeyOf(last)));
      } else {
        AccumulateNew(peerId, of, init, acc, last);
      }
    }
  }

  // ---- What a batch leaves in the index ---------------------------------------------------------------------

  predicate DistinctIds(docs: seq<Doc>) {
    forall i, j | 0 <= i < j < |docs| && IsValid(docs[i]) && IsValid(docs[j]) :: docs[i].docId != docs[j].docId
  }

  function HowMany(has: Doc -> bool, docs: seq<Doc>): nat {
    if docs == [] then 0
    else HowMany(has, docs[..|docs| - 1]) + if has(docs[|docs| - 1]) then 1 else 0
  }

  /** Some document that has the keyword has this pointer. */
  ghost predicate PointsAt(has: Doc -> bool, peerId: string, docs: seq<Doc>, p: Pointer) {
    exists d :: d in docs && has(d) && p == PointerTo(peerId, d)
  }

  lemma PointsAtStep(has: Doc -> bool, peerId: string, init: seq<Doc>, last: Doc, p: Pointer)
    ensures PointsAt(has, peerId, init + [last], p)
      <==> PointsAt(has, peerId, init, p) || (has(last) && p == PointerTo(peerId, last))
  {
    assert last in init + [last];
    if PointsAt(has, peerId, init, p) {
      var d :| d in init && has(d) && p == PointerTo(peerId, d);
      assert d in init + [last];
    }
  }

  lemma {:induction false} CollectedAll(has: Doc -> bool, peerId: string, docs: seq<Doc>, p: Pointer)
    requires HowMany(has, docs) <= MAX_POINTERS_PER_KEYWORD
    ensures |Collected(has, peerId, docs)| == HowMany(has, docs)
    ensures p in Collected(has, peerId, docs) <==> PointsAt(has, peerId, docs, p)
  {
    if docs != [] {
      var init, last := docs[..|docs| - 1], docs[|docs| - 1];
      CollectedAll(has, peerId, init, p);
      assert docs == init + [last];
      PointsAtStep(has, peerId, init, last, p);
    }
  }

  lemma {:induction false} CollectedTimes(has: Doc -> bool, peerId: string, docs: seq<Doc>, d: Doc)
    requires HowMany(has, docs) <= MAX_POINTERS_PER_KEYWORD
    requires DistinctIds(docs) && IsValid(d) && forall e | has(e) :: IsValid(e)
    ensures Times(Collected(has, peerId, docs), Key(peerId, d.docId))
      <= if exists e :: e in docs && IsValid(e) && e.docId == d.docId then 1 else 0
    ensures d in docs ==> Times(Collected(has, peerId, docs), Key(peerId, d.docId)) == if has(d) then 1 else 0
  {
    if docs != [] {
      var init, last := docs[..|docs| - 1], docs[|docs| - 1];
      CollectedTimes(has, peerId, init, d);
      CollectedAll(has, peerId, init, PointerTo(peerId, d));
      assert docs == init + [last];
      TimesPush(Collected(has, peerId, init), PointerTo(peerId, last), Key(peerId, d.docId));
    }
  }

  lemma DistinctPush(merged: seq<Pointer>, p: Pointer)
    requires DistinctKeys(merged) && !HasKey(merged, KeyOf(p))
    ensures DistinctKeys(merged + [p])
  {
    forall i | 0 <= i < |merged| ensures KeyOf(merged[i]) != KeyOf(p) {
      assert merged[i] in merged;
    }
  }

  lemma {:induction false} HasKeyPush(merged: seq<Pointer>, p: Pointer, k: Key)
    ensures HasKey(merged + [p], k) <==> HasKey(merged, k) || KeyOf(p) == k
  {
    if HasKey(merged, k) {
      var q :| q in merged && KeyOf(q) == k;
      assert q in merged + [p];
    }
    assert p in merged + [p];
  }

  /** Pointers with keys of their own all go in, up to the limit. */
  lemma {:induction false} MergeDistinct(merged: seq<Pointer>, ps: seq<Pointer>, rest: seq<Pointer>, limit: nat)
    requires ps != [] && DistinctKeys(merged + ps) && |merged| + |ps| <= limit
    ensures Merge(merged, ps + rest, limit)
         == if |merged| + |ps| == limit then merged + ps else Merge(merged + ps, rest, limit)
    decreases |ps|
  {
    forall j | 0 <= j < |merged| ensures KeyOf(merged[j]) != KeyOf(ps[0]) {
      assert (merged + ps)[j] == merged[j] && (merged + ps)[|merged|] == ps[0];
    }
    assert (ps + rest)[1..] == ps[1..] + rest;
    assert (merged + [ps[0]]) + ps[1..] == merged + ps;
    if |ps| == 1 {
      assert ps[1..] + rest == rest && merged + [ps[0]] == merged + ps;
    } else {
      MergeDistinct(merged + [ps[0]], ps[1..], rest, limit);
    }
  }

  /** `merged` grew to r by pointers of ps with new keys, and has all their keys unless the limit was reached. */
  ghost predicate Grown(merged: seq<Pointer>, ps: seq<Pointer>, limit: nat, r: seq<Pointer>) {
    && merged <= r && DistinctKeys(r) && |r| <= limit
    && (forall i | |merged| <= i < |r| :: r[i] in ps && !HasKey(merged, KeyOf(r[i])))
    && (|r| < limit ==> forall p | p in ps :: HasKey(r, KeyOf(p)))
  }

  lemma PrefixKeys(merged: seq<Pointer>, r: seq<Pointer>, k: Key)
    requires merged <= r && HasKey(merged, k)
    ensures HasKey(r, k)
  {
    var p :| p in merged && KeyOf(p) == k;
    assert p in r;
  }

  lemma GrownStep(
    merged: seq<Pointer>, next: seq<Pointer>, ps: seq<Pointer>, limit: nat, r: seq<Pointer>
  )
    requires ps != [] && next == (if HasKey(merged, KeyOf(ps[0])) then merged else merged + [ps[0]])
    requires Grown(next, ps[1..], limit, r)
    ensures Grown(merged, ps, limit, r)
  {
    forall i | |merged| <= i < |r| ensures r[i] in ps && !HasKey(merged, KeyOf(r[i])) {
      if i >= |next| {
        HasKeyPush(merged, ps[0], KeyOf(r[i]));
      } else {
        assert r[i] == next[i];
      }
    }
    HasKeyPush(merged, ps[0], KeyOf(ps[0]));
    PrefixKeys(next, r, KeyOf(ps[0]));
    forall p | p in ps && |r| < limit ensures HasKey(r, KeyOf(p)) {
      assert p == ps[0] || p in ps[1..];
    }
  }

  lemma {:induction false} MergeGrows(merged: seq<Pointer>, ps: seq<Pointer>, limit: nat)
    requires DistinctKeys(merged) && |merged| < limit
    ensures Grown(merged, ps, limit, Merge(merged, ps, limit))
    decreases |ps|
  {
    if ps != [] {
      var next := if HasKey(merged, KeyOf(ps[0])) then merged else merged + [ps[0]];
      if next != merged {
        DistinctPush(merged, ps[0]);
      }
      if |next| < limit {
        MergeGrows(next, ps[1..], limit);
      }
      GrownStep(merged, next, ps, limit, Merge(merged, ps, limit));
    }
  }

  lemma GrownFull(merged: seq<Pointer>, ps: seq<Pointer>, limit: nat)
    requires DistinctKeys(merged) && |merged| == limit
    ensures Grown(merged, ps, limit, merged)
  {
  }

  lemma {:induction false} CollectedDistinct(has: Doc -> bool, peerId: string, docs: seq<Doc>)
    requires DistinctIds(docs) && forall e | has(e) :: IsValid(e)
    requires HowMany(has, docs) <= MAX_POINTERS_PER_KEYWORD
    ensures DistinctKeys(Collected(has, peerId, docs))
  {
    if docs != [] {
      var init, last := docs[..|docs| - 1], docs[|docs| - 1];
      CollectedDistinct(has, peerId, init);
      forall p | p in Collected(has, peerId, init) && IsValid(last) ensures KeyOf(p) != Key(peerId, last.docId) {
        CollectedAll(has, peerId, init, p);
        var d :| d in init && has(d) && p == PointerTo(peerId, d);
      }
    }
  }

  lemma CollectedFits(lang: Language, peerId: string, docs: seq<Doc>, kw: string)
    requires DistinctIds(docs) && HowMany(HasKeyword(lang, kw), docs) <= MAX_POINTERS_PER_KEYWORD
    ensures DistinctKeys(Collected(HasKeyword(lang, kw), peerId, docs))
    ensures |Collected(HasKeyword(lang, kw), peerId, docs)| <= MAX_POINTERS_PER_KEYWORD
  {
    CollectedDistinct(HasKeyword(lang, kw), peerId, docs);
    CollectedAll(HasKeyword(lang, kw), peerId, docs, PointerTo(peerId, Doc(0, "", "", "", 0.0)));
  }

  /** Whatever was stored before, a batch puts its own pointers first, each key once; older pointers stay behind them,
      unless they are of the same documents or the hundred are reached. */
  lemma RepublishedUnder(lang: Language, peerId: string, docs: seq<Doc>, before: Dht, after: Dht, kw: string)
    requires DistinctIds(docs) && IsPublished(lang, peerId, docs, before, after)
    requires HowMany(HasKeyword(lang, kw), docs) <= MAX_POINTERS_PER_KEYWORD
    ensures var ps := Collected(HasKeyword(lang, kw), peerId, docs);
            if ps == [] then At(after, kw) == At(before, kw)
            else Grown(ps, At(before, kw), 100, At(after, kw))
  {
    var ps := Collected(HasKeyword(lang, kw), peerId, docs);
    CollectedFits(lang, peerId, docs, kw);
    if ps != [] {
      assert [] + ps == ps;
      MergeDistinct([], ps, At(before, kw), MAX_POINTERS_PER_KEYWORD);
      if |ps| < MAX_POINTERS_PER_KEYWORD {
        MergeGrows(ps, At(before, kw), MAX_POINTERS_PER_KEYWORD);
      } else {
        GrownFull(ps, At(before, kw), MAX_POINTERS_PER_KEYWORD);
      }
    }
  }

  /** Every pointer of the peer stored under the keyword before is of a document of the batch that has it. */
  ghost predicate NoStale(lang: Language, peerId: string, docs: seq<Doc>, before: Dht, kw: string) {
    forall q | q in At(before, kw) && q.peerId == peerId ::
      HasKey(Collected(HasKeyword(lang, kw), peerId, docs), KeyOf(q))
  }

  /** Behind the batch's own pointers there are only those of other peers. */
  lemma OthersBehind(lang: Language, peerId: string, docs: seq<Doc>, before: Dht, after: Dht, kw: string)
    requires DistinctIds(docs) && IsPublished(lang, peerId, docs, before, after)
    requires NoStale(lang, peerId, docs, before, kw)
    requires HowMany(HasKeyword(lang, kw), docs) <= MAX_POINTERS_PER_KEYWORD
    ensures Collected(HasKeyword(lang, kw), peerId, docs) <= At(after, kw)
    ensures forall q | q in At(after, kw)[|Collected(HasKeyword(lang, kw), peerId, docs)|..] :: q.peerId != peerId
  {
    RepublishedUnder(lang, peerId, docs, before, after, kw);
    var ps, stored := Collected(HasKeyword(lang, kw), peerId, docs), At(after, kw);
    if ps == [] {
      forall q | q in stored ensures q.peerId != peerId {
        assert q.peerId == peerId ==> HasKey(ps, KeyOf(q));
      }
    } else {
      forall i | |ps| <= i < |stored| ensures stored[i].peerId != peerId {
        assert stored[i] in At(before, kw);
      }
    }
  }

  lemma {:induction false} NoneOfOthers(ps: seq<Pointer>, k: Key)
    requires forall q | q in ps :: q.peerId != k.peerId
    ensures Times(ps, k) == 0
  {
    if ps != [] {
      NoneOfOthers(ps[..|ps| - 1], k);
    }
  }

  /** Under a keyword that at most a hundred documents have, the peer's pointers are those of all these documents. */
  lemma StoredUnder(lang: Language, peerId: string, docs: seq<Doc>, before: Dht, after: Dht, kw: string, p: Pointer)
    requires DistinctIds(docs) && IsPublished(lang, peerId, docs, before, after)
    requires NoStale(lang, peerId, docs, before, kw)
    requires HowMany(HasKeyword(lang, kw), docs) <= 100 && p.peerId == peerId
    ensures p in At(after, kw)
       <==> exists d :: d in docs && HasKeyword(lang, kw)(d) && p.docId == d.docId && p.url == d.url
                        && p.title == d.title && p.score == d.score
    ensures Times(At(after, kw), KeyOf(p)) == Times(Collected(HasKeyword(lang, kw), peerId, docs), KeyOf(p))
  {
    var ps, stored := Collected(HasKeyword(lang, kw), peerId, docs), At(after, kw);
    OthersBehind(lang, peerId, docs, before, after, kw);
    assert stored == ps + stored[|ps|..];
    TimesConcat(ps, stored[|ps|..], KeyOf(p));
    NoneOfOthers(stored[|ps|..], KeyOf(p));
    CollectedAll(HasKeyword(lang, kw), peerId, docs, p);
  }

  // ---- What a query finds -----------------------------------------------------------------------------------

  /** How many of the keywords of the query the document has. */
  function MatchCount(lang: Language, d: Doc, kws: seq<string>): nat {
    if kws == [] then 0
    else MatchCount(lang, d, kws[..|kws| - 1]) + if HasKeyword(lang, kws[|kws| - 1])(d) then 1 else 0
  }

  ghost predicate NoneCapped(lang: Language, docs: seq<Doc>, kws: seq<string>) {
    forall kw | kw in kws :: HowMany(HasKeyword(lang, kw), docs) <= 100
  }

  ghost predicate NothingStale(lang: Language, peerId: string, docs: seq<Doc>, before: Dht, kws: seq<string>) {
    forall kw | kw in kws :: NoStale(lang, peerId, docs, before, kw)
  }

  /** A batch published over an index that has no stale pointers of this peer under the keywords, nor too many. */
  ghost predicate CleanBatch(
    lang: Language, peerId: string, docs: seq<Doc>, before: Dht, after: Dht, kws: seq<string>
  ) {
    && DistinctIds(docs) && IsPublished(lang, peerId, docs, before, after)
    && NoneCapped(lang, docs, kws) && NothingStale(lang, peerId, docs, before, kws)
  }

  lemma {:induction false} AnswerTimes(
    lang: Language, peerId: string, docs: seq<Doc>, before: Dht, after: Dht, kws: seq<string>, d: Doc
  )
    requires CleanBatch(lang, peerId, docs, before, after, kws) && d in docs && IsValid(d)
    ensures Times(Answers(after, kws), Key(peerId, d.docId)) == MatchCount(lang, d, kws)
    decreases |kws|
  {
    if kws != [] {
      var init, last := kws[..|kws| - 1], kws[|kws| - 1];
      assert last in kws;
      AnswerTimes(lang, peerId, docs, before, after, init, d);
      StoredUnder(lang, peerId, docs, before, after, last, PointerTo(peerId, d));
      CollectedTimes(HasKeyword(lang, last), peerId, docs, d);
      TimesConcat(Answers(after, init), At(after, last), Key(peerId, d.docId));
    }
  }

  lemma {:induction false} AnswersFromDocs(
    lang: Language, peerId: string, docs: seq<Doc>, before: Dht, after: Dht, kws: seq<string>, p: Pointer
  )
    requires CleanBatch(lang, peerId, docs, before, after, kws) && p in Answers(after, kws) && p.peerId == peerId
    ensures exists d :: d in docs && IsValid(d) && p == PointerTo(peerId, d)
    decreases |kws|
  {
    var init, last := kws[..|kws| - 1], kws[|kws| - 1];
    assert last in kws;
    if p in Answers(after, init) {
      AnswersFromDocs(lang, peerId, docs, before, after, init, p);
    } else {
      StoredUnder(lang, peerId, docs, before, after, last, p);
    }
  }

  function HasId(id: int): Doc -> bool {
    (d: Doc) => IsValid(d) && d.docId == id
  }

  /** The position of the valid document with an id, or the number of documents. */
  function FindDoc(docs: seq<Doc>, id: int): nat {
    IndexWhere(docs, HasId(id))
  }

  function PointerOf(peerId: string, docs: seq<Doc>): Key -> Pointer {
    (k: Key) =>
      var i := FindDoc(docs, k.docId);
      if i < |docs| then PointerTo(peerId, docs[i]) else Pointer(k.peerId, k.docId, "", 0.0, "")
  }

  lemma PointerOfDoc(peerId: string, docs: seq<Doc>, d: Doc)
    requires DistinctIds(docs) && d in docs && IsValid(d)
    ensures PointerOf(peerId, docs)(Key(peerId, d.docId)) == PointerTo(peerId, d)
  {
    var i := FindDoc(docs, d.docId);
    var j :| 0 <= j < |docs| && docs[j] == d;
  }

  /** The pointer a query gives for a document. */
  function Scored(lang: Language, peerId: string, d: Doc, kws: seq<string>): Pointer {
    PointerTo(peerId, d).(score := d.score * MatchCount(lang, d, kws) as real)
  }

  lemma ScoredIsWeighted(lang: Language, peerId: string, d: Doc, kws: seq<string>)
    ensures Scored(lang, peerId, d, kws) == Weighted(PointerTo(peerId, d), MatchCount(lang, d, kws))
  {
    RepeatedIsProduct(d.score, MatchCount(lang, d, kws));
  }

  lemma OneOfEach(ps: seq<Pointer>, p: Pointer)
    requires DistinctKeys(ps)
    ensures multiset(ps)[p] == if p in ps then 1 else 0
    decreases |ps|
  {
    if ps != [] {
      var init, last := ps[..|ps| - 1], ps[|ps| - 1];
      OneOfEach(init, p);
      assert ps == init + [last];
    }
  }

  lemma OneScored(
    lang: Language, peerId: string, docs: seq<Doc>, before: Dht, after: Dht, kws: seq<string>, p: Pointer
  )
    requires CleanBatch(lang, peerId, docs, before, after, kws) && p.peerId == peerId
    ensures ByScore(Query(after, kws))
    ensures multiset(Query(after, kws))[p] ==
      if exists d :: d in docs && MatchCount(lang, d, kws) > 0 && p == Scored(lang, peerId, d, kws) then 1 else 0
  {
    var ps := Answers(after, kws);
    var of := PointerOf(peerId, docs);
    forall q | q in ps && q.peerId == peerId ensures of(KeyOf(q)) == q {
      AnswersFromDocs(lang, peerId, docs, before, after, kws, q);
      var d :| d in docs && IsValid(d) && q == PointerTo(peerId, d);
      PointerOfDoc(peerId, docs, d);
    }
    AccumulatedSums(peerId, of, ps);
    var acc := AccumulateAll(ps);
    RankSorts(acc);
    RankElements(acc);
    OneOfEach(acc, p);
    if p in acc {
      AccumulatedIsScored(lang, peerId, docs, before, after, kws, p);
    }
    if d :| d in docs && MatchCount(lang, d, kws) > 0 && p == Scored(lang, peerId, d, kws) {
      ScoredIsAccumulated(lang, peerId, docs, before, after, kws, d);
    }
  }

  /** The pointer p gives the document d and its score times n. */
  predicate GivesDoc(p: Pointer, d: Doc, n: nat) {
    p.docId == d.docId && p.url == d.url && p.title == d.title && p.score == d.score * n as real
  }

  lemma ScoredFields(lang: Language, peerId: string, d: Doc, kws: seq<string>, p: Pointer)
    requires p.peerId == peerId
    ensures p == Scored(lang, peerId, d, kws) <==> GivesDoc(p, d, MatchCount(lang, d, kws))
  {
  }

  /** After a batch, a query returns exactly one pointer of this peer for each of the batch's documents that has one
      of its keywords, with the document's own fields and its score times the number of keywords it has, and all
      pointers the best first. */
  lemma QueryFindsAll(
    lang: Language, peerId: string, docs: seq<Doc>, before: Dht, after: Dht, kws: seq<string>, p: Pointer
  )
    requires CleanBatch(lang, peerId, docs, before, after, kws) && p.peerId == peerId
    ensures var found := Query(after, kws); forall i, j | 0 <= i < j < |found| :: found[i].score >= found[j].score
    ensures multiset(Query(after, kws))[p] ==
      if exists d :: d in docs && MatchCount(lang, d, kws) > 0 && GivesDoc(p, d, MatchCount(lang, d, kws)) then 1 else 0
  {
    OneScored(lang, peerId, docs, before, after, kws, p);
    hide GivesDoc, Scored, Query, MatchCount;
    forall d ensures p == Scored(lang, peerId, d, kws) <==> GivesDoc(p, d, MatchCount(lang, d, kws)) {
      ScoredFields(lang, peerId, d, kws, p);
    }
  }

  predicate IsMatch(lang: Language, d: Doc, kw: string) {
    d.docId > 0 && d.url != "" && d.text != "" && kw in KeywordsOf(lang.words(d.text), lang.stopWords, 50)
  }

  /** The positions of the keywords that match the document. */
  ghost function Matching(lang: Language, d: Doc, kws: seq<string>): set<nat> {
    set i: nat | i < |kws| && IsMatch(lang, d, kws[i])
  }

  lemma MatchingPush(lang: Language, d: Doc, init: seq<string>, kw: string)
    ensures |Matching(lang, d, init + [kw])| == |Matching(lang, d, init)| + if IsMatch(lang, d, kw) then 1 else 0
  {
    hide IsMatch;
    assert Matching(lang, d, init + [kw]) == Matching(lang, d, init) + if IsMatch(lang, d, kw) then {|init|} else {};
  }

  lemma MatchIsKeyword(lang: Language, d: Doc, kw: string)
    ensures HasKeyword(lang, kw)(d) <==> IsMatch(lang, d, kw)
  {
  }

  /** MatchCount counts the keywords of the query that are among the document's fifty most frequent ones; a document
      without an id, a URL or a text has none. */
  lemma {:induction false} MatchCountIsSize(lang: Language, d: Doc, kws: seq<string>)
    ensures MatchCount(lang, d, kws) == |Matching(lang, d, kws)|
  {
    hide IsMatch, HasKeyword;
    if kws != [] {
      var init, last := kws[..|kws| - 1], kws[|kws| - 1];
      MatchCountIsSize(lang, d, init);
      MatchingPush(lang, d, init, last);
      MatchIsKeyword(lang, d, last);
      assert kws == init + [last];
    }
  }

  lemma {:induction false} MatchedIsValid(lang: Language, d: Doc, kws: seq<string>)
    requires MatchCount(lang, d, kws) > 0
    ensures IsValid(d)
  {
    if !HasKeyword(lang, kws[|kws| - 1])(d) {
      MatchedIsValid(lang, d, kws[..|kws| - 1]);
    }
  }

  lemma {:induction false} MetIsListed(ps: seq<Pointer>, k: Key)
    requires Times(ps, k) > 0
    ensures exists p :: p in ps && KeyOf(p) == k
  {
    var last := ps[|ps| - 1];
    if KeyOf(last) == k {
      assert last in ps;
    } else {
      MetIsListed(ps[..|ps| - 1], k);
    }
  }

  lemma AccumulatedIsScored(
    lang: Language, peerId: string, docs: seq<Doc>, before: Dht, after: Dht, kws: seq<string>, p: Pointer
  )
    requires CleanBatch(lang, peerId, docs, before, after, kws) && p.peerId == peerId
    requires Sums(peerId, PointerOf(peerId, docs), Answers(after, kws), AccumulateAll(Answers(after, kws)))
    requires p in AccumulateAll(Answers(after, kws))
    ensures exists d :: d in docs && MatchCount(lang, d, kws) > 0 && p == Scored(lang, peerId, d, kws)
  {
    var ps := Answers(after, kws);
    assert SumsAt(PointerOf(peerId, docs), ps, p);
    MetIsListed(ps, KeyOf(p));
    var q :| q in ps && KeyOf(q) == KeyOf(p);
    AnswersFromDocs(lang, peerId, docs, before, after, kws, q);
    var d :| d in docs && IsValid(d) && q == PointerTo(peerId, d);
    PointerOfDoc(peerId, docs, d);
    AnswerTimes(lang, peerId, docs, before, after, kws, d);
    ScoredIsWeighted(lang, peerId, d, kws);
  }

  lemma ScoredIsAccumulated(
    lang: Language, peerId: string, docs: seq<Doc>, before: Dht, after: Dht, kws: seq<string>, d: Doc
  )
    requires CleanBatch(lang, peerId, docs, before, after, kws)
    requires Sums(peerId, PointerOf(peerId, docs), Answers(after, kws), AccumulateAll(Answers(after, kws)))
    requires d in docs && MatchCount(lang, d, kws) > 0
    ensures Scored(lang, peerId, d, kws) in AccumulateAll(Answers(after, kws))
  {
    MatchedIsValid(lang, d, kws);
    AnswerTimes(lang, peerId, docs, before, after, kws, d);
    PointerOfDoc(peerId, docs, d);
    ScoredIsWeighted(lang, peerId, d, kws);
    var acc := AccumulateAll(Answers(after, kws));
    assert HasKey(acc, Key(peerId, d.docId));
    var p :| p in acc && KeyOf(p) == Key(peerId, d.docId);
    assert SumsAt(PointerOf(peerId, docs), Answers(after, kws), p);
    assert p == Scored(lang, peerId, d, kws);
  }
}
