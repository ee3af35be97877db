/** Snapshot files: a store exported into one, and one merged into a store. */
module Snapshot {
  import opened Common
  import opened DocumentStore
  import opened StoredText

  type Byte = b: int | 0 <= b < 256 witness 0
  type Bytes = seq<Byte>

  const FORMAT_VERSION := 1
  const MAX_SNAPSHOT_FILE_BYTES: nat := 1024 * 1024 * 1024
  const MAX_HEADER_LEN: nat := 10 * 1024 * 1024
  const MAX_SNAPSHOT_DOCUMENTS: nat := 100_000
  const MAX_ARRAY_LEN: nat := 65536
  const MAX_STR_LEN: nat := 1024 * 1024

  /** A document as export_documents gives it. */
  datatype Exported = Exported(
    url: string, title: string, text: string, language: Option<string>, rawHtmlHash: string, textHash: string,
    crawledAt: real
  )

  function ExportOne(d: Doc): Exported {
    Exported(d.url, d.title, d.text, d.language, d.rawHtmlHash, d.textHash, d.crawledAt)
  }

  function ExportDocuments(docs: seq<Doc>): seq<Exported> {
    seq(|docs|, i requires 0 <= i < |docs| => ExportOne(docs[i]))
  }

  // ---- Merging ----------------------------------------------------------------------------------------------

  /** What the store that imports adds to each document: its compressor, and the time at which it adds document i. */
  datatype Writer = Writer(codec: Option<TextCodec>, clock: nat -> real)

  /** The row add_document makes of an imported document: its id and crawl time are new, its recrawl columns
      start from their defaults. */
  function RowOf(e: Exported, w: Writer, i: nat): Doc {
    Doc(0, e.url, e.title, e.text, e.language, e.rawHtmlHash, e.textHash, w.clock(i), Compressed(w.codec, e.text),
        false, map[])
  }

  datatype Merged = Merged(store: Store, imported: nat, skipped: nat)

  /** The import loop. */
  function Import(tok: Tokenizer, s: Store, docs: seq<Exported>, w: Writer): Merged {
    if docs == [] then Merged(s, 0, 0)
    else
      var n := |docs| - 1;
      var m := Import(tok, s, docs[..n], w);
      var (s', id) := AddDocument(tok, m.store, RowOf(docs[n], w, n));
      if id.None? then m.(skipped := m.skipped + 1) else Merged(s', m.imported + 1, m.skipped)
  }

  /** Whether the loop takes document i. */
  predicate Taken(tok: Tokenizer, s: Store, docs: seq<Exported>, w: Writer, i: nat)
    requires i < |docs|
  {
    !Clashes(Import(tok, s, docs[..i], w).store.docs, docs[i].url, docs[i].textHash)
  }

  /** The loop's next step. */
  lemma ImportNext(tok: Tokenizer, s: Store, docs: seq<Exported>, w: Writer, i: nat)
    requires i < |docs|
    ensures var m := Import(tok, s, docs[..i], w);
            var (s', id) := AddDocument(tok, m.store, RowOf(docs[i], w, i));
            Import(tok, s, docs[..i + 1], w)
            == if id.None? then m.(skipped := m.skipped + 1) else Merged(s', m.imported + 1, m.skipped)
  {
    assert docs[..i + 1][..i] == docs[..i];
  }

  lemma AddOutcome(tok: Tokenizer, s: Store, d: Doc)
    ensures var (s', id) := AddDocument(tok, s, d);
            && (Clashes(s.docs, d.url, d.textHash) ==> id == None && s' == s)
            && (!Clashes(s.docs, d.url, d.textHash) ==>
                  id == Some(s.lastId + 1) && s'.docs == s.docs + [d.(id := s.lastId + 1)] && s'.lastId == s.lastId + 1)
  {
  }

  lemma ImportStep(tok: Tokenizer, s: Store, docs: seq<Exported>, w: Writer, n: nat)
    requires |docs| == n + 1
    ensures var m, m' := Import(tok, s, docs[..n], w), Import(tok, s, docs, w);
            && (!Taken(tok, s, docs, w, n) ==> m' == m.(skipped := m.skipped + 1))
            && (Taken(tok, s, docs, w, n) ==>
                  && m'.imported == m.imported + 1 && m'.skipped == m.skipped
                  && m'.store.lastId == m.store.lastId + 1
                  && m'.store.docs == m.store.docs + [RowOf(docs[n], w, n).(id := m.store.lastId + 1)])
  {
    AddOutcome(tok, Import(tok, s, docs[..n], w).store, RowOf(docs[n], w, n));
  }

  /** Every document is counted once, and the rows that were there stay in front. */
  lemma {:induction false} ImportCounts(tok: Tokenizer, s: Store, docs: seq<Exported>, w: Writer)
    ensures var m := Import(tok, s, docs, w);
            && m.imported + m.skipped == |docs|
            && |m.store.docs| == |s.docs| + m.imported
            && m.store.docs[..|s.docs|] == s.docs
  {
    if docs != [] {
      var n := |docs| - 1;
      ImportCounts(tok, s, docs[..n], w);
      ImportStep(tok, s, docs, w, n);
    }
  }

  predicate HasKey(e: Exported, url: string, hash: string) {
    e.url == url || e.textHash == hash
  }

  /** Whether the loop took a document with this URL or this text hash. */
  ghost predicate TakenLike(tok: Tokenizer, s: Store, docs: seq<Exported>, w: Writer, url: string,
                            hash: string) {
    exists i: nat :: TakenWith(tok, s, docs, w, url, hash, i)
  }

  /** Document i has the URL or the text hash, and the loop takes it. */
  predicate TakenWith(tok: Tokenizer, s: Store, docs: seq<Exported>, w: Writer, url: string, hash: string, i: nat) {
    i < |docs| && HasKey(docs[i], url, hash) && Taken(tok, s, docs, w, i)
  }

  lemma TakenPrefix(tok: Tokenizer, s: Store, docs: seq<Exported>, w: Writer, n: nat, i: nat)
    requires i < n <= |docs|
    ensures Taken(tok, s, docs[..n], w, i) == Taken(tok, s, docs, w, i)
  {
    assert docs[..n][..i] == docs[..i];
  }

  lemma TakenWithPrefix(
    tok: Tokenizer, s: Store, docs: seq<Exported>, w: Writer, n: nat, url: string, hash: string, i: nat
  )
    requires i < n <= |docs|
    ensures TakenWith(tok, s, docs[..n], w, url, hash, i) == TakenWith(tok, s, docs, w, url, hash, i)
  {
    TakenPrefix(tok, s, docs, w, n, i);
  }

  lemma TakenLikeGrows(tok: Tokenizer, s: Store, docs: seq<Exported>, w: Writer, n: nat, url: string,
                       hash: string)
    requires n <= |docs| && TakenLike(tok, s, docs[..n], w, url, hash)
    ensures TakenLike(tok, s, docs, w, url, hash)
  {
    var i: nat :| TakenWith(tok, s, docs[..n], w, url, hash, i);
    TakenWithPrefix(tok, s, docs, w, n, url, hash, i);
  }

  lemma TakenLikeSplit(tok: Tokenizer, s: Store, docs: seq<Exported>, w: Writer, n: nat, url: string,
                       hash: string)
    requires |docs| == n + 1 && TakenLike(tok, s, docs, w, url, hash)
    ensures TakenLike(tok, s, docs[..n], w, url, hash) || TakenWith(tok, s, docs, w, url, hash, n)
  {
    var i: nat :| TakenWith(tok, s, docs, w, url, hash, i);
    if i != n {
      TakenWithPrefix(tok, s, docs, w, n, url, hash, i);
    }
  }

  /** A document with the key was taken, and it was the last or an earlier one. */
  lemma TakenLikeStep(tok: Tokenizer, s: Store, docs: seq<Exported>, w: Writer, n: nat, url: string,
                      hash: string)
    requires |docs| == n + 1
    ensures TakenLike(tok, s, docs, w, url, hash)
      <==> TakenLike(tok, s, docs[..n], w, url, hash) || TakenWith(tok, s, docs, w, url, hash, n)
  {
    if TakenLike(tok, s, docs[..n], w, url, hash) {
      TakenLikeGrows(tok, s, docs, w, n, url, hash);
    }
    if TakenLike(tok, s, docs, w, url, hash) {
      TakenLikeSplit(tok, s, docs, w, n, url, hash);
    }
  }

  lemma ClashPush(docs: seq<Doc>, row: Doc, url: string, hash: string)
    ensures Clashes(docs + [row], url, hash) <==> Clashes(docs, url, hash) || row.url == url || row.textHash == hash
  {
    if Clashes(docs, url, hash) {
      var d :| d in docs && (d.url == url || d.textHash == hash);
      assert d in docs + [row];
    }
    assert row in docs + [row];
  }

  /** After the import a URL or text hash is taken exactly if it was before, or by a document that was taken. */
  lemma {:induction false} ImportClashes(tok: Tokenizer, s: Store, docs: seq<Exported>, w: Writer, url: string,
                                         hash: string)
    ensures Clashes(Import(tok, s, docs, w).store.docs, url, hash)
      <==> Clashes(s.docs, url, hash) || TakenLike(tok, s, docs, w, url, hash)
  {
    if docs != [] {
      var n := |docs| - 1;
      ImportClashes(tok, s, docs[..n], w, url, hash);
      ImportStep(tok, s, docs, w, n);
      TakenLikeStep(tok, s, docs, w, n, url, hash);
      var m := Import(tok, s, docs[..n], w);
      ClashPush(m.store.docs, RowOf(docs[n], w, n).(id := m.store.lastId + 1), url, hash);
    }
  }

  /** The first document of each URL and text hash is kept: document i is taken exactly if neither the store nor
      a document taken before it has its URL or its text hash. */
  lemma FirstKept(tok: Tokenizer, s: Store, docs: seq<Exported>, w: Writer, i: nat)
    requires i < |docs|
    ensures Taken(tok, s, docs, w, i)
      <==> !Clashes(s.docs, docs[i].url, docs[i].textHash)
           && !exists j: nat :: j < i && TakenWith(tok, s, docs, w, docs[i].url, docs[i].textHash, j)
  {
    var url, hash := docs[i].url, docs[i].textHash;
    ImportClashes(tok, s, docs[..i], w, url, hash);
    forall j: nat | j < i
      ensures TakenWith(tok, s, docs[..i], w, url, hash, j) == TakenWith(tok, s, docs, w, url, hash, j)
    {
      TakenWithPrefix(tok, s, docs, w, i, url, hash, j);
    }
  }

  lemma {:induction false} AllClash(tok: Tokenizer, s: Store, docs: seq<Exported>, w: Writer)
    requires forall e | e in docs :: Clashes(s.docs, e.url, e.textHash)
    ensures Import(tok, s, docs, w) == Merged(s, 0, |docs|)
  {
    if docs != [] {
      var n := |docs| - 1;
      AllClash(tok, s, docs[..n], w);
      assert docs[n] in docs;
      ImportStep(tok, s, docs, w, n);
    }
  }

  /** Importing the same documents again adds none. */
  lemma ImportTwice(tok: Tokenizer, s: Store, docs: seq<Exported>, w: Writer, w': Writer)
    ensures var m := Import(tok, s, docs, w);
            Import(tok, m.store, docs, w') == Merged(m.store, 0, |docs|)
  {
    var m := Import(tok, s, docs, w);
    forall e | e in docs ensures Clashes(m.store.docs, e.url, e.textHash) {
      var i: nat :| i < |docs| && docs[i] == e;
      ImportClashes(tok, s, docs, w, e.url, e.textHash);
      if !Taken(tok, s, docs, w, i) {
        ClashesStay(tok, s, docs, w, i, e.url, e.textHash);
      } else {
        assert TakenWith(tok, s, docs, w, e.url, e.textHash, i);
      }
    }
    AllClash(tok, m.store, docs, w');
  }

  lemma ClashesStay(tok: Tokenizer, s: Store, docs: seq<Exported>, w: Writer, i: nat, url: string,
                    hash: string)
    requires i <= |docs| && Clashes(Import(tok, s, docs[..i], w).store.docs, url, hash)
    ensures Clashes(Import(tok, s, docs, w).store.docs, url, hash)
  {
    ImportClashes(tok, s, docs[..i], w, url, hash);
    ImportClashes(tok, s, docs, w, url, hash);
    if TakenLike(tok, s, docs[..i], w, url, hash) {
      TakenLikeGrows(tok, s, docs, w, i, url, hash);
    }
  }

  // ---- Into an empty store ----------------------------------------------------------------------------------

  predicate DistinctKeys(docs: seq<Exported>) {
    forall i, j | 0 <= i < j < |docs| :: docs[i].url != docs[j].url && docs[i].textHash != docs[j].textHash
  }

  /** The i-th row holds the i-th document in every column, under a new id, as crawled when it was imported, with its
      text packed again and the columns that only this node fills as they start. */
  predicate AreImported(rows: seq<Doc>, docs: seq<Exported>, w: Writer) {
    |rows| == |docs| && forall i | 0 <= i < |rows| :: IsImported(rows[i], docs[i], w, i)
  }

  predicate IsImported(row: Doc, e: Exported, w: Writer, i: nat) {
    && row.id == i + 1
    && row.url == e.url && row.title == e.title && row.text == e.text && row.language == e.language
    && row.rawHtmlHash == e.rawHtmlHash && row.textHash == e.textHash
    && row.crawledAt == w.clock(i)
    && row.compressed == (if w.codec.Some? then Some(w.codec.value.pack(e.text)) else None)
    && !row.jsRequired && row.recrawl == map[]
  }

  lemma ImportedPush(rows: seq<Doc>, docs: seq<Exported>, w: Writer, row: Doc, e: Exported)
    requires AreImported(rows, docs, w) && IsImported(row, e, w, |rows|)
    ensures AreImported(rows + [row], docs + [e], w)
  {
  }

  lemma NewRowIsImported(e: Exported, w: Writer, i: nat)
    ensures IsImported(RowOf(e, w, i).(id := i + 1), e, w, i)
  {
  }

  lemma ImportedMore(rows: seq<Doc>, rows': seq<Doc>, docs: seq<Exported>, w: Writer, n: nat)
    requires |docs| == n + 1 && AreImported(rows, docs[..n], w)
    requires rows' == rows + [RowOf(docs[n], w, n).(id := n + 1)]
    ensures AreImported(rows', docs, w)
  {
    hide IsImported, RowOf;
    NewRowIsImported(docs[n], w, n);
    ImportedPush(rows, docs[..n], w, RowOf(docs[n], w, n).(id := n + 1), docs[n]);
    assert docs == docs[..n] + [docs[n]];
  }

  lemma ImportNew(tok: Tokenizer, docs: seq<Exported>, w: Writer, n: nat)
    requires DistinctKeys(docs) && |docs| == n + 1
    requires AreImported(Import(tok, EMPTY, docs[..n], w).store.docs, docs[..n], w)
    requires Import(tok, EMPTY, docs[..n], w).store.lastId == n
    ensures Taken(tok, EMPTY, docs, w, n)
    ensures AreImported(Import(tok, EMPTY, docs, w).store.docs, docs, w)
  {
    hide AreImported, Import, RowOf, DistinctKeys, Clashes;
    var m := Import(tok, EMPTY, docs[..n], w);
    NoClash(m.store.docs, docs, w, n);
    ImportStep(tok, EMPTY, docs, w, n);
    ImportedMore(m.store.docs, Import(tok, EMPTY, docs, w).store.docs, docs, w, n);
  }

  lemma {:induction false} ImportIntoEmpty(tok: Tokenizer, docs: seq<Exported>, w: Writer)
    requires DistinctKeys(docs)
    ensures var m := Import(tok, EMPTY, docs, w);
            && m.imported == |docs| && m.skipped == 0
            && AreImported(m.store.docs, docs, w)
            && m.store.lastId == |docs|
  {
    if docs != [] {
      var n := |docs| - 1;
      ImportIntoEmpty(tok, docs[..n], w);
      ImportNew(tok, docs, w, n);
      ImportStep(tok, EMPTY, docs, w, n);
    }
  }

  lemma NoClash(rows: seq<Doc>, docs: seq<Exported>, w: Writer, n: nat)
    requires DistinctKeys(docs) && n < |docs| && AreImported(rows, docs[..n], w)
    ensures !Clashes(rows, docs[n].url, docs[n].textHash)
  {
    forall d | d in rows ensures d.url != docs[n].url && d.textHash != docs[n].textHash {
      var i: nat :| 0 <= i < |rows| && rows[i] == d;
      assert IsImported(rows[i], docs[..n][i], w, i);
    }
  }
}
