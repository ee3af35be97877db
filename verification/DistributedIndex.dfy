/** The distributed index object of one node, over a DHT in which every put and get succeeds. */
module DistributedIndex {
  import opened Keywords
  import opened Distributed

  class DistributedIndex {
    const lang: Language
    const peerId: string
    var dht: Dht
    var documentsPublished: nat
    var keywordsPublished: nat
    var queriesPerformed: nat
    var pointersFound: nat

    constructor (lang: Language, peerId: string, dht: Dht)
      ensures this.lang == lang && this.peerId == peerId && this.dht == dht
      ensures documentsPublished == keywordsPublished == queriesPerformed == pointersFound == 0
    {
      this.lang := lang;
      this.peerId := peerId;
      this.dht := dht;
      documentsPublished, keywordsPublished, queriesPerformed, pointersFound := 0, 0, 0, 0;
    }

    /** Collects the pointers of a batch, keyword by keyword. */
    method CollectPointers(docs: seq<Doc>) returns (pointers: map<string, seq<Pointer>>, withKeywords: nat)
      ensures IsCollected(lang, peerId, docs, pointers)
      ensures withKeywords == CountWithKeywords(lang, docs)
    {
      pointers, withKeywords := map[], 0;
      for i := 0 to |docs|
        invariant IsCollected(lang, peerId, docs[..i], pointers)
        invariant withKeywords == CountWithKeywords(lang, docs[..i])
      {
        var d := docs[i];
        CollectedNext(lang, peerId, docs, i);
        if d.docId <= 0 {
          continue;
        }
        if d.url == "" || d.text == "" {
          continue;
        }
        var keywords := ExtractKeywords(lang, d.text, MAX_KEYWORDS_PER_DOC);
        if keywords == [] {
          continue;
        }
        withKeywords := withKeywords + 1;
        ExtractsTop(lang.words(d.text), lang.stopWords, MAX_KEYWORDS_PER_DOC);
        pointers := AddPointers(pointers, keywords, PointerTo(peerId, d));
      }
      assert docs[..|docs|] == docs;
    }

    /** Puts every keyword's pointers into the DHT. */
    method PublishAll(pointers: map<string, seq<Pointer>>) returns (published: nat)
      modifies this`dht
      ensures PutUnder(pointers, pointers.Keys, old(dht), dht)
      ensures published == |pointers.Keys|
    {
      published := 0;
      ghost var before := dht;
      ghost var done: set<string> := {};
      var left := pointers.Keys;
      while left != {}
        invariant left + done == pointers.Keys && left !! done && published == |done|
        invariant PutUnder(pointers, done, before, dht)
        decreases left
      {
        var kw :| kw in left;
        left := left - {kw};
        PutOneMore(pointers, done, before, dht, kw);
        done := done + {kw};
        dht := PublishKeyword(dht, kw, pointers[kw]);
        published := published + 1;
      }
    }

    method PublishBatch(docs: seq<Doc>) returns (published: nat)
      modifies this`dht, this`documentsPublished, this`keywordsPublished
      ensures IsPublished(lang, peerId, docs, old(dht), dht)
      ensures documentsPublished == old(documentsPublished) + CountWithKeywords(lang, docs)
      ensures published == |AllKeywords(lang, docs)| && keywordsPublished == old(keywordsPublished) + published
    {
      var pointers, withKeywords := CollectPointers(docs);
      published := PublishAll(pointers);
      AllPublished(lang, peerId, docs, pointers, old(dht), dht);
      KeywordsCollected(lang, peerId, docs, pointers);
      documentsPublished := documentsPublished + withKeywords;
      keywordsPublished := keywordsPublished + published;
    }

    method RunQuery(keywords: seq<string>) returns (results: seq<Pointer>)
      modifies this`queriesPerformed, this`pointersFound
      ensures results == Query(dht, keywords)
      ensures queriesPerformed == old(queriesPerformed) + 1 && pointersFound == old(pointersFound) + |results|
    {
      queriesPerformed := queriesPerformed + 1;
      var scores: seq<Pointer> := [];
      for i := 0 to |keywords|
        invariant scores == AccumulateAll(Answers(dht, keywords[..i]))
        invariant queriesPerformed == old(queriesPerformed) + 1 && pointersFound == old(pointersFound)
      {
        assert keywords[..i + 1][..i] == keywords[..i];
        scores := AddAnswer(scores, Answers(dht, keywords[..i]), At(dht, keywords[i]));
      }
      assert keywords[..|keywords|] == keywords;
      results := RankByScore(scores);
      pointersFound := pointersFound + |results|;
    }
  }

  /** The pointers collected for each keyword, without empty lists. */
  ghost predicate IsCollected(lang: Language, peerId: string, docs: seq<Doc>, pointers: map<string, seq<Pointer>>) {
    && (forall kw :: At(pointers, kw) == Collected(HasKeyword(lang, kw), peerId, docs))
    && forall kw | kw in pointers :: pointers[kw] != []
  }

  /** What one more document adds. */
  lemma CollectedNext(lang: Language, peerId: string, docs: seq<Doc>, i: nat)
    requires i < |docs|
    ensures forall kw :: Collected(HasKeyword(lang, kw), peerId, docs[..i + 1])
                      == WithPointer(Collected(HasKeyword(lang, kw), peerId, docs[..i]), HasKeyword(lang, kw)(docs[i]),
                                     PointerTo(peerId, docs[i]))
    ensures CountWithKeywords(lang, docs[..i + 1])
         == CountWithKeywords(lang, docs[..i]) + if IsValid(docs[i]) && DocKeywords(lang, docs[i]) != [] then 1 else 0
  {
    assert docs[..i + 1][..i] == docs[..i];
  }

  lemma AllPublished(
    lang: Language, peerId: string, docs: seq<Doc>, pointers: map<string, seq<Pointer>>, before: Dht, after: Dht
  )
    requires IsCollected(lang, peerId, docs, pointers) && PutUnder(pointers, pointers.Keys, before, after)
    ensures IsPublished(lang, peerId, docs, before, after)
  {
    forall kw ensures kw in pointers <==> Collected(HasKeyword(lang, kw), peerId, docs) != [] {
      assert At(pointers, kw) == Collected(HasKeyword(lang, kw), peerId, docs);
    }
  }

  /** The keywords of all valid documents of a batch. */
  ghost function AllKeywords(lang: Language, docs: seq<Doc>): set<string> {
    set d, kw | d in docs && IsValid(d) && kw in DocKeywords(lang, d) :: kw
  }

  lemma {:induction false} CollectedIff(has: Doc -> bool, peerId: string, docs: seq<Doc>)
    ensures Collected(has, peerId, docs) != [] <==> exists d :: d in docs && has(d)
  {
    if docs != [] {
      var init, last := docs[..|docs| - 1], docs[|docs| - 1];
      CollectedIff(has, peerId, init);
      assert docs == init + [last];
    }
  }

  lemma KeywordsCollected(lang: Language, peerId: string, docs: seq<Doc>, pointers: map<string, seq<Pointer>>)
    requires IsCollected(lang, peerId, docs, pointers)
    ensures pointers.Keys == AllKeywords(lang, docs)
  {
    forall kw ensures kw in pointers <==> kw in AllKeywords(lang, docs) {
      assert At(pointers, kw) == Collected(HasKeyword(lang, kw), peerId, docs);
      CollectedIff(HasKeyword(lang, kw), peerId, docs);
    }
  }

  predicate IsPublishable(lang: Language, d: Doc) {
    d.docId > 0 && d.url != "" && d.text != ""
    && exists w | w in lang.words(d.text) :: |w| >= 2 && w !in lang.stopWords
  }

  lemma SomeKeyword(lang: Language, d: Doc)
    ensures IsPublishable(lang, d) <==> IsValid(d) && DocKeywords(lang, d) != []
  {
    var words := lang.words(d.text);
    ExtractsTop(words, lang.stopWords, 50);
    var all := set w | w in words && |w| >= 2 && w !in lang.stopWords;
    if w :| w in words && |w| >= 2 && w !in lang.stopWords {
      assert w in all;
      assert |all| > 0;
    }
  }

  /** The positions of the publishable documents. */
  ghost function Publishable(lang: Language, docs: seq<Doc>): set<nat> {
    set i: nat | i < |docs| && IsPublishable(lang, docs[i])
  }

  lemma PublishablePush(lang: Language, init: seq<Doc>, d: Doc)
    ensures |Publishable(lang, init + [d])| == |Publishable(lang, init)| + if IsPublishable(lang, d) then 1 else 0
  {
    hide IsPublishable;
    var docs := init + [d];
    assert Publishable(lang, docs) == Publishable(lang, init) + if IsPublishable(lang, d) then {|init|} else {};
  }

  /** A document counts as published if it has an id, a URL and a word that can be a keyword. */
  lemma {:induction false} PublishedDocuments(lang: Language, docs: seq<Doc>)
    ensures CountWithKeywords(lang, docs) == |Publishable(lang, docs)|
  {
    hide IsPublishable;
    if docs != [] {
      var init, d := docs[..|docs| - 1], docs[|docs| - 1];
      PublishedDocuments(lang, init);
      PublishablePush(lang, init, d);
      SomeKeyword(lang, d);
      assert docs == init + [d];
    }
  }

  /** The pointers of the keywords in `done` have been merged into what was stored, and nothing else. */
  ghost predicate PutUnder(pointers: map<string, seq<Pointer>>, done: set<string>, before: Dht, after: Dht)
    requires done <= pointers.Keys
  {
    forall kw :: At(after, kw) == if kw in done then Merged(pointers[kw], At(before, kw)) else At(before, kw)
  }

  lemma PutOneMore(pointers: map<string, seq<Pointer>>, done: set<string>, before: Dht, after: Dht, kw: string)
    requires done <= pointers.Keys && kw in pointers && kw !in done && PutUnder(pointers, done, before, after)
    ensures PutUnder(pointers, done + {kw}, before, PublishKeyword(after, kw, pointers[kw]))
  {
    assert At(after, kw) == At(before, kw);
  }

  lemma AccumulateMore(ps: seq<Pointer>, p: Pointer)
    ensures AccumulateAll(ps + [p]) == Accumulate(AccumulateAll(ps), p)
  {
    assert (ps + [p])[..|ps|] == ps;
  }

  lemma AccumulateNext(seen: seq<Pointer>, pointers: seq<Pointer>, j: nat)
    requires j < |pointers|
    ensures AccumulateAll(seen + pointers[..j + 1]) == Accumulate(AccumulateAll(seen + pointers[..j]), pointers[j])
  {
    assert seen + pointers[..j + 1] == seen + pointers[..j] + [pointers[j]];
    AccumulateMore(seen + pointers[..j], pointers[j]);
  }

  /** Adds a pointer's score to that of its document, which may be new. */
  method AddPointer(scores: seq<Pointer>, p: Pointer) returns (more: seq<Pointer>)
    ensures more == Accumulate(scores, p)
  {
    var found := Find(scores, KeyOf(p));
    if found < |scores| {
      more := scores[found := scores[found].(score := scores[found].score + p.score)];
    } else {
      more := scores + [p];
    }
  }

  /** Adds the answer to one more keyword to the scores. */
  method AddAnswer(scores: seq<Pointer>, ghost seen: seq<Pointer>, pointers: seq<Pointer>)
    returns (more: seq<Pointer>)
    requires scores == AccumulateAll(seen)
    ensures more == AccumulateAll(seen + pointers)
  {
    more := scores;
    assert seen + pointers[..0] == seen;
    for j := 0 to |pointers|
      invariant more == AccumulateAll(seen + pointers[..j])
    {
      AccumulateNext(seen, pointers, j);
      more := AddPointer(more, pointers[j]);
    }
    assert pointers[..|pointers|] == pointers;
  }

  function CountWithKeywords(lang: Language, docs: seq<Doc>): nat {
    if docs == [] then 0
    else
      var d := docs[|docs| - 1];
      CountWithKeywords(lang, docs[..|docs| - 1]) + if IsValid(d) && DocKeywords(lang, d) != [] then 1 else 0
  }

  /** Appends a document's pointer under each of its keywords that has room. */
  method AddPointers(pointers: map<string, seq<Pointer>>, keywords: seq<string>, p: Pointer)
    returns (more: map<string, seq<Pointer>>)
    requires NoRepeats(keywords)
    requires forall kw | kw in pointers :: pointers[kw] != []
    ensures forall kw :: At(more, kw) == WithPointer(At(pointers, kw), kw in keywords, p)
    ensures forall kw | kw in more :: more[kw] != []
  {
    more := pointers;
    for i := 0 to |keywords|
      invariant forall kw :: At(more, kw) == WithPointer(At(pointers, kw), kw in keywords[..i], p)
      invariant forall kw | kw in more :: more[kw] != []
    {
      var kw := keywords[i];
      assert kw !in keywords[..i];
      assert keywords[..i + 1] == keywords[..i] + [kw];
      var ps := if kw in more then more[kw] else [];
      if |ps| < MAX_POINTERS_PER_KEYWORD {
        more := more[kw := ps + [p]];
      }
    }
    assert keywords[..|keywords|] == keywords;
  }

  function WithPointer(ps: seq<Pointer>, has: bool, p: Pointer): seq<Pointer> {
    if has && |ps| < MAX_POINTERS_PER_KEYWORD then ps + [p] else ps
  }
}
