/** The document store object, its snapshots, and the loop that publishes it page by page. */
module LocalStore {
  import opened Common
  import opened DocumentStore
  import opened Snapshot
  import opened SnapshotFile
  import opened StoredText

  class LocalStore {
    const tok: Tokenizer
    const codec: Option<TextCodec>
    var docs: seq<Doc>
    var index: Index
    var lastId: int

    ghost function View(): Store
      reads this
    {
      Store(docs, index, lastId)
    }

    constructor (tok: Tokenizer, codec: Option<TextCodec>)
      ensures this.tok == tok && this.codec == codec && View() == EMPTY
    {
      this.tok, this.codec := tok, codec;
      docs, index, lastId := [], multiset{}, 0;
    }

    method AddDocument(url: string, title: string, text: string, rawHtmlHash: string, textHash: string,
                       language: Option<string>, jsRequired: bool, now: real) returns (id: Option<int>)
      modifies this
      ensures (View(), id) == DocumentStore.AddDocument(tok, old(View()),
                                Doc(0, url, title, text, language, rawHtmlHash, textHash, now,
                                    Compressed(codec, text), jsRequired, map[]))
    {
      var compressed: Option<Blob> := None;
      if codec.Some? {
        compressed := Some(codec.value.pack(text));
      }
      id := Insert(Doc(0, url, title, text, language, rawHtmlHash, textHash, now, compressed, jsRequired, map[]));
    }

    method GetDocument(id: int) returns (r: Fetched)
      ensures r == Fetch(codec, docs, HasId(id))
    {
      r := RowToDocument(IndexWhere(docs, HasId(id)));
    }

    method GetDocumentByUrl(url: string) returns (r: Fetched)
      ensures r == Fetch(codec, docs, HasUrl(url))
    {
      r := RowToDocument(IndexWhere(docs, HasUrl(url)));
    }

    method RowToDocument(i: nat) returns (r: Fetched)
      requires i <= |docs|
      ensures r == FetchAt(codec, docs, i)
    {
      if i == |docs| {
        return NotFound;
      }
      var d := docs[i];
      if d.compressed.Some? && d.compressed.value != [] && codec.Some? {
        var text := codec.value.unpack(d.compressed.value);
        if text.None? {
          return Raised;
        }
        d := d.(text := text.value);
      }
      return Found(d);
    }

    /** INSERT, which fires the insert trigger. */
    method Insert(d: Doc) returns (id: Option<int>)
      modifies this
      ensures (View(), id) == DocumentStore.AddDocument(tok, old(View()), d)
    {
      if Clashes(docs, d.url, d.textHash) {
        return None;
      }
      var row := d.(id := lastId + 1);
      index := AfterInsert(tok, index, row);
      docs := docs + [row];
      lastId := row.id;
      return Some(row.id);
    }

    method UpdateDocument(url: string, f: Fields) returns (r: Updated)
      modifies this`docs, this`index
      ensures (View(), r) == DocumentStore.UpdateDocument(tok, old(View()), url, f)
    {
      if f == NO_FIELDS {
        return Done(false);
      }
      var i := IndexWhere(docs, HasUrl(url));
      if i == |docs| {
        return Done(false);
      }
      var row := Written(docs[i], f);
      if exists d | d in DropAt(docs, i) :: d.textHash == row.textHash {
        return IntegrityError;
      }
      index := AfterUpdate(tok, index, docs[i], row);
      docs := docs[i := row];
      return Done(true);
    }

    method DeleteDocument(id: int) returns (deleted: bool)
      modifies this`docs, this`index
      ensures (View(), deleted) == DocumentStore.DeleteDocument(tok, old(View()), id)
    {
      var i := IndexWhere(docs, HasId(id));
      deleted := DeleteRow(i);
    }

    method SoftDelete(url: string) returns (deleted: bool)
      modifies this`docs, this`index
      ensures (View(), deleted) == DocumentStore.SoftDelete(tok, old(View()), url)
    {
      var i := IndexWhere(docs, HasUrl(url));
      deleted := DeleteRow(i);
    }

    method DeleteRow(i: nat) returns (deleted: bool)
      requires i <= |docs|
      modifies this`docs, this`index
      ensures (View(), deleted) == DeleteAt(tok, old(View()), i)
    {
      if i == |docs| {
        return false;
      }
      index := AfterDelete(tok, index, docs[i]);
      docs := DropAt(docs, i);
      return true;
    }

    /** get_documents_for_publish: a page of the table in id order. */
    method GetDocumentsForPublish(limit: int, offset: int) returns (page: seq<Doc>)
      ensures page == Page(docs, limit, offset)
    {
      var l := if limit < 1 then 1 else if limit > MAX_PAGE then MAX_PAGE else limit;
      var o := if offset < 0 then 0 else offset;
      var from := if o < |docs| then o else |docs|;
      var to := if o + l < |docs| then o + l else |docs|;
      page := docs[from..to];
    }
  }

  const MAX_PAGE := 10_000
  const MAX_BATCH := 1_000

  function Clamp(x: int, lo: int, hi: int): int {
    if x < lo then lo else if x > hi then hi else x
  }

  function Page(docs: seq<Doc>, limit: int, offset: int): seq<Doc> {
    var o := if offset < 0 then 0 else offset;
    var l := Clamp(limit, 1, MAX_PAGE);
    docs[(if o < |docs| then o else |docs|)..(if o + l < |docs| then o + l else |docs|)]
  }

  /** A page begins at the offset, or at the first document for a negative one, and has as many documents as asked for,
      but at least one and at most ten thousand, as far as there are so many. */
  lemma PageIs(docs: seq<Doc>, limit: int, offset: int, i: nat)
    ensures var o := if offset < 0 then 0 else offset;
            var l := if limit < 1 then 1 else if limit > 10_000 then 10_000 else limit;
            var page := Page(docs, limit, offset);
            && (i < |page| <==> i < l && o + i < |docs|)
            && (i < |page| ==> page[i] == docs[o + i])
  {
  }

  /** add_document for a document of a snapshot, at the loop's step i. */
  method AddExported(store: LocalStore, d: Exported, clock: nat -> real, i: nat) returns (id: Option<int>)
    modifies store
    ensures (store.View(), id)
         == DocumentStore.AddDocument(store.tok, old(store.View()), RowOf(d, Writer(store.codec, clock), i))
  {
    id := store.AddDocument(d.url, d.title, d.text, d.rawHtmlHash, d.textHash, d.language, false, clock(i));
  }

  /** import_snapshot: reads the file, then adds its documents one by one. */
  method ImportSnapshot(store: LocalStore, codec: Codec, file: Bytes, clock: nat -> real)
    returns (r: Result<(nat, nat)>)
    modifies store
    ensures Read(codec, file).Err? ==> r == Err(Read(codec, file).error) && store.View() == old(store.View())
    ensures Read(codec, file).Ok? ==>
      var m := Import(store.tok, old(store.View()), Read(codec, file).value, Writer(store.codec, clock));
      r == Ok((m.imported, m.skipped)) && store.View() == m.store
  {
    var read := Read(codec, file);
    if read.Err? {
      return Err(read.error);
    }
    var docs := read.value;
    var imported, skipped := 0, 0;
    ghost var before := store.View();
    for i := 0 to |docs|
      invariant Merged(store.View(), imported, skipped)
             == Import(store.tok, before, docs[..i], Writer(store.codec, clock))
    {
      ImportNext(store.tok, before, docs, Writer(store.codec, clock), i);
      var id := AddExported(store, docs[i], clock, i);
      if id.None? {
        skipped := skipped + 1;
      } else {
        imported := imported + 1;
      }
    }
    assert docs[..|docs|] == docs;
    return Ok((imported, skipped));
  }

  /** What publishing a batch adds to the total: nothing when it fails. */
  function Counted(result: Option<int>): int {
    if result.Some? then result.value else 0
  }

  function TotalPublished(publish: seq<Doc> -> Option<int>, batches: seq<seq<Doc>>): int {
    if batches == [] then 0
    else TotalPublished(publish, batches[..|batches| - 1]) + Counted(publish(batches[|batches| - 1]))
  }

  /** The documents in batches of the given size, the last of which may be smaller. */
  function Batches(docs: seq<Doc>, size: nat): seq<seq<Doc>>
    requires size > 0
  {
    if |docs| <= size then (if docs == [] then [] else [docs])
    else [docs[..size]] + Batches(docs[size..], size)
  }

  function Concat(batches: seq<seq<Doc>>): seq<Doc> {
    if batches == [] then [] else batches[0] + Concat(batches[1..])
  }

  /** The batches are the documents in order, each once, and none is empty or too large. */
  lemma {:induction false} BatchesCover(docs: seq<Doc>, size: nat)
    requires size > 0
    ensures Concat(Batches(docs, size)) == docs
    ensures forall b | b in Batches(docs, size) :: 0 < |b| <= size
    decreases |docs|
  {
    if |docs| > size {
      BatchesCover(docs[size..], size);
      assert docs == docs[..size] + docs[size..];
    } else {
      assert Concat([docs]) == docs + Concat([]);
    }
  }

  /** All batches but the last are full. */
  lemma {:induction false} BatchesFull(docs: seq<Doc>, size: nat, k: nat)
    requires size > 0 && k < |Batches(docs, size)| - 1
    ensures |Batches(docs, size)[k]| == size
    decreases k
  {
    if k > 0 {
      BatchesFull(docs[size..], size, k - 1);
    }
  }

  /** What is published is all documents in order, or as many as the limit allows, in full batches of the given size,
      brought between 1 and 1000, and a last one. */
  lemma RepublishedIs(docs: seq<Doc>, batchSize: int, limit: Option<int>, k: nat)
    ensures var size := if batchSize < 1 then 1 else if batchSize > 1000 then 1000 else batchSize;
            var batches := Republished(docs, batchSize, limit);
            && Concat(batches) == (match limit
                                   case None => docs
                                   case Some(n) => if n < 0 then [] else if n > |docs| then docs else docs[..n])
            && (k < |batches| ==> 0 < |batches[k]| <= size)
            && (k < |batches| - 1 ==> |batches[k]| == size)
  {
    var size := if batchSize < 1 then 1 else if batchSize > 1000 then 1000 else batchSize;
    var covered := docs[..Covered(docs, limit)];
    assert docs[..|docs|] == docs;
    BatchesCover(covered, size);
    var batches := Batches(covered, size);
    assert k < |batches| ==> batches[k] in batches;
    if k < |batches| - 1 {
      BatchesFull(covered, size, k);
    }
  }

  /** The total is what the batches that were published report, one after the other; those that failed add nothing. */
  lemma {:induction false} TotalIs(publish: seq<Doc> -> Option<int>, more: seq<seq<Doc>>, batches: seq<seq<Doc>>)
    ensures (forall b | b in batches :: publish(b).None?) ==> TotalPublished(publish, batches) == 0
    ensures TotalPublished(publish, more + batches) == TotalPublished(publish, more) + TotalPublished(publish, batches)
    ensures |batches| == 1 && publish(batches[0]).Some? ==>
              TotalPublished(publish, batches) == publish(batches[0]).value
  {
    if batches == [] {
      assert more + batches == more;
    } else {
      var n := |batches| - 1;
      TotalIs(publish, more, batches[..n]);
      assert (more + batches)[..|more| + n] == more + batches[..n];
      assert batches == batches[..n] + [batches[n]];
    }
  }

  /** Publishing the next batch leaves the batches of the rest to do. */
  lemma NextBatch(docs: seq<Doc>, size: nat, offset: nat, n: nat)
    requires size > 0 && offset < |docs|
    requires n == if |docs| - offset < size then |docs| - offset else size
    ensures Batches(docs[offset..], size) == [docs[offset..offset + n]] + Batches(docs[offset + n..], size)
  {
    var rest := docs[offset..];
    assert rest[..n] == docs[offset..offset + n];
    assert rest[n..] == docs[offset + n..];
    if |rest| <= size {
      assert rest[..n] == rest && docs[offset + n..] == [];
    }
  }

  /** After `offset` documents, in the batches `done`, the rest is still to publish. */
  ghost predicate Progress(publish: seq<Doc> -> Option<int>, docs: seq<Doc>, size: nat, offset: nat, total: int,
                           done: seq<seq<Doc>>)
    requires size > 0 && offset <= |docs|
  {
    Batches(docs, size) == done + Batches(docs[offset..], size) && total == TotalPublished(publish, done)
  }

  lemma ProgressMore(publish: seq<Doc> -> Option<int>, docs: seq<Doc>, size: nat, offset: nat, total: int,
                     done: seq<seq<Doc>>, batch: seq<Doc>)
    requires size > 0 && offset < |docs| && Progress(publish, docs, size, offset, total, done)
    requires offset + |batch| <= |docs| && batch == docs[offset..offset + |batch|]
    requires |batch| == if |docs| - offset < size then |docs| - offset else size
    ensures Progress(publish, docs, size, offset + |batch|, total + Counted(publish(batch)), done + [batch])
  {
    NextBatch(docs, size, offset, |batch|);
    assert (done + [batch])[..|done|] == done;
    assert done + ([batch] + Batches(docs[offset + |batch|..], size))
        == (done + [batch]) + Batches(docs[offset + |batch|..], size);
  }

  lemma PageOf(docs: seq<Doc>, limit: int, offset: int)
    requires 1 <= limit <= MAX_PAGE && 0 <= offset <= |docs|
    ensures var n := if offset + limit < |docs| then limit else |docs| - offset;
            Page(docs, limit, offset) == docs[offset..offset + n]
  {
  }

  /** How many documents a limit lets through. */
  function Covered(docs: seq<Doc>, limit: Option<int>): nat {
    if limit.None? then |docs| else Clamp(limit.value, 0, |docs|)
  }

  /** What republishing publishes: all documents up to the limit, in batches. */
  function Republished(docs: seq<Doc>, batchSize: int, limit: Option<int>): seq<seq<Doc>> {
    Batches(docs[..Covered(docs, limit)], Clamp(batchSize, 1, MAX_BATCH))
  }

  /** The page the loop asks for next is what is left of the documents it covers, up to the batch size. */
  lemma NextPage(docs: seq<Doc>, limit: Option<int>, size: nat, offset: nat, current: int)
    requires 0 < size <= MAX_BATCH && offset <= Covered(docs, limit) && (limit.Some? ==> offset < limit.value)
    requires current == if limit.Some? && limit.value - offset < size then limit.value - offset else size
    ensures var all := docs[..Covered(docs, limit)];
            var n := if |all| - offset < size then |all| - offset else size;
            Page(docs, current, offset) == all[offset..offset + n]
  {
    var covered := Covered(docs, limit);
    var n := if covered - offset < size then covered - offset else size;
    assert n == if offset + current < |docs| then current else |docs| - offset;
    PageOf(docs, current, offset);
    PrefixSlice(docs, covered, offset, n);
  }

  lemma PrefixSlice<T>(xs: seq<T>, k: nat, from: nat, n: nat)
    requires from + n <= k <= |xs|
    ensures xs[..k][from..from + n] == xs[from..from + n]
  {
  }

  /** Publishing the next page is progress; when it is empty, everything has been published. */
  lemma PageTaken(
    publish: seq<Doc> -> Option<int>, docs: seq<Doc>, limit: Option<int>, size: nat, offset: nat, current: int,
    total: int, done: seq<seq<Doc>>
  )
    requires 0 < size <= MAX_BATCH && offset <= Covered(docs, limit) && (limit.Some? ==> offset < limit.value)
    requires current == if limit.Some? && limit.value - offset < size then limit.value - offset else size
    requires Progress(publish, docs[..Covered(docs, limit)], size, offset, total, done)
    ensures var all, page := docs[..Covered(docs, limit)], Page(docs, current, offset);
            && offset + |page| <= |all| && (page == [] ==> offset == |all|)
            && (page != [] ==>
                  Progress(publish, all, size, offset + |page|, total + Counted(publish(page)), done + [page]))
  {
    var all, page := docs[..Covered(docs, limit)], Page(docs, current, offset);
    NextPage(docs, limit, size, offset, current);
    if page != [] {
      ProgressMore(publish, all, size, offset, total, done, page);
    }
  }

  lemma NothingLeft(publish: seq<Doc> -> Option<int>, docs: seq<Doc>, size: nat, total: int, done: seq<seq<Doc>>)
    requires size > 0 && Progress(publish, docs, size, |docs|, total, done)
    ensures total == TotalPublished(publish, Batches(docs, size))
  {
    assert docs[|docs|..] == [] && done + [] == done;
  }

  /** The loop of republish_local_index. */
  method PublishPages(store: LocalStore, publish: seq<Doc> -> Option<int>, size: int, limit: Option<int>)
    returns (total: int)
    requires 0 < size <= MAX_BATCH
    ensures total == TotalPublished(publish, Batches(store.docs[..Covered(store.docs, limit)], size))
  {
    total := 0;
    var offset := 0;
    ghost var all := store.docs[..Covered(store.docs, limit)];
    ghost var done: seq<seq<Doc>> := [];
    assert all[0..] == all;
    while true
      invariant 0 <= offset <= |all|
      invariant Progress(publish, all, size, offset, total, done)
      decreases |all| - offset
    {
      if limit.Some? && offset >= limit.value {
        break;
      }
      var current := size;
      if limit.Some? && limit.value - offset < current {
        current := limit.value - offset;
      }
      var documents := store.GetDocumentsForPublish(current, offset);
      PageTaken(publish, store.docs, limit, size, offset, current, total, done);
      if documents == [] {
        break;
      }
      done := done + [documents];
      offset := offset + |documents|;
      total := total + Counted(publish(documents));
    }
    assert offset == |all|;
    NothingLeft(publish, all, size, total, done);
  }

  /** republish_local_index: publishes the batches one after the other, whether publishing them succeeds or not. */
  method RepublishLocalIndex(store: LocalStore, publish: Option<seq<Doc> -> Option<int>>, batchSize: int,
                             limit: Option<int>)
    returns (total: int)
    ensures publish.None? ==> total == 0
    ensures publish.Some? ==> total == TotalPublished(publish.value, Republished(store.docs, batchSize, limit))
  {
    if publish.None? {
      return 0;
    }
    total := PublishPages(store, publish.value, Clamp(batchSize, 1, MAX_BATCH), limit);
  }
}
