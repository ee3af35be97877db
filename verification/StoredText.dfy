/** The text of a stored document as it is read back. With compression on the table keeps the text twice, and an
    update writes only one of the two. */
module StoredText {
  import opened Common
  import opened DocumentStore

  /** The compressor of texts; UTF-8 and zstd are left abstract. Unpacking raises on data it cannot read. */
  datatype TextCodec = TextCodec(pack: string -> Blob, unpack: Blob -> Option<string>)

  /** The compressed text add_document stores. */
  function Compressed(codec: Option<TextCodec>, text: string): Option<Blob> {
    if codec.Some? then Some(codec.value.pack(text)) else None
  }

  /** The text a row is read with; None where unpacking raises. */
  function ReadText(codec: Option<TextCodec>, d: Doc): Option<string> {
    if d.compressed.Some? && d.compressed.value != [] && codec.Some? then codec.value.unpack(d.compressed.value)
    else Some(d.text)
  }

  datatype Fetched = NotFound | Raised | Found(d: Doc)

  function FetchAt(codec: Option<TextCodec>, docs: seq<Doc>, i: nat): Fetched
    requires i <= |docs|
  {
    if i == |docs| then NotFound
    else
      var text := ReadText(codec, docs[i]);
      if text.None? then Raised else Found(docs[i].(text := text.value))
  }

  /** get_document and get_document_by_url. */
  function Fetch(codec: Option<TextCodec>, docs: seq<Doc>, wanted: Doc -> bool): Fetched {
    FetchAt(codec, docs, IndexWhere(docs, wanted))
  }

  /** A text that the compressor, if there is one, gives back. */
  predicate Kept(codec: Option<TextCodec>, text: string) {
    codec.Some? ==>
      var data := codec.value.pack(text);
      data != [] && codec.value.unpack(data) == Some(text)
  }

  // ---- What no operation writes ----------------------------------------------------------------------------------

  /** The row has the id of one of the rows before, and what only add_document writes is as it was there. */
  ghost predicate Descends(before: seq<Doc>, row: Doc) {
    exists d :: d in before && SameOrigin(d, row)
  }

  predicate SameOrigin(d: Doc, row: Doc) {
    && d.id == row.id && d.url == row.url && d.language == row.language && d.crawledAt == row.crawledAt
    && d.compressed == row.compressed && d.jsRequired == row.jsRequired
  }

  ghost predicate Traced(before: Store, s: Store) {
    && before.lastId <= s.lastId
    && forall row | row in s.docs && row.id <= before.lastId :: Descends(before.docs, row)
  }

  lemma AddTraced(tok: Tokenizer, before: Store, s: Store, d: Doc)
    requires Traced(before, s)
    ensures Traced(before, AddDocument(tok, s, d).0)
  {
  }

  lemma UpdateTraced(tok: Tokenizer, before: Store, s: Store, url: string, f: Fields)
    requires Traced(before, s)
    ensures Traced(before, UpdateDocument(tok, s, url, f).0)
  {
    var i := IndexWhere(s.docs, HasUrl(url));
    var s' := UpdateDocument(tok, s, url, f).0;
    forall row | row in s'.docs && row.id <= before.lastId ensures Descends(before.docs, row) {
      if row !in s.docs {
        assert row == Written(s.docs[i], f);
        assert Descends(before.docs, s.docs[i]);
        var d :| d in before.docs && SameOrigin(d, s.docs[i]);
        assert SameOrigin(d, row);
      }
    }
  }

  lemma DeleteTraced(tok: Tokenizer, before: Store, s: Store, i: nat)
    requires Traced(before, s) && i <= |s.docs|
    ensures Traced(before, DeleteAt(tok, s, i).0)
  {
    forall row | row in DeleteAt(tok, s, i).0.docs ensures row in s.docs {
    }
  }

  lemma {:induction false} RunTraced(tok: Tokenizer, s: Store, steps: seq<Step>)
    ensures Traced(s, Outcome(tok, s, steps))
  {
    if steps == [] {
      forall row | row in s.docs ensures Descends(s.docs, row) {
        assert SameOrigin(row, row);
      }
    } else {
      var t := Outcome(tok, s, steps[..|steps| - 1]);
      RunTraced(tok, s, steps[..|steps| - 1]);
      match steps[|steps| - 1]
      case Add(d) => AddTraced(tok, s, t, d);
      case Update(url, f) => UpdateTraced(tok, s, t, url, f);
      case Delete(id) => DeleteTraced(tok, s, t, IndexWhere(t.docs, HasId(id)));
      case Forget(url) => DeleteTraced(tok, s, t, IndexWhere(t.docs, HasUrl(url)));
    }
  }

  lemma AddedRow(tok: Tokenizer, s: Store, d: Doc, row: Doc)
    requires Consistent(tok, s) && !Clashes(s.docs, d.url, d.textHash)
    requires row in AddDocument(tok, s, d).0.docs && row.id == s.lastId + 1
    ensures row == d.(id := s.lastId + 1)
  {
  }

  /** Whatever happens after a document was added, as long as its row is there it is read with the text it was added
      with if compression is on, and with the text of the last update only if it is off. So reading gives what the
      text column, the index and every export hold if and only if compression is off or that is still the first text. */
  lemma ReadsBackIff(
    tok: Tokenizer, codec: Option<TextCodec>, s: Store, d: Doc, steps: seq<Step>, row: Doc
  )
    requires Consistent(tok, s) && !Clashes(s.docs, d.url, d.textHash)
    requires d.compressed == Compressed(codec, d.text) && Kept(codec, d.text)
    requires var added := AddDocument(tok, s, d); row in Outcome(tok, added.0, steps).docs && added.1 == Some(row.id)
    ensures ReadText(codec, row) == Some(if codec.Some? then d.text else row.text)
    ensures ReadText(codec, row) == Some(row.text) <==> codec.None? || row.text == d.text
  {
    var (s', id) := AddDocument(tok, s, d);
    RunTraced(tok, s', steps);
    assert Descends(s'.docs, row);
    var origin :| origin in s'.docs && SameOrigin(origin, row);
    AddedRow(tok, s, d, origin);
  }

  lemma FoundLast(docs: seq<Doc>, row: Doc)
    requires forall d | d in docs :: d.url != row.url
    ensures IndexWhere(docs + [row], HasUrl(row.url)) == |docs|
  {
    assert (docs + [row])[|docs|] == row;
  }

  lemma FoundById(docs: seq<Doc>, row: Doc, lastId: int)
    requires IdsGrow(docs, lastId) && row.id == lastId + 1
    ensures IndexWhere(docs + [row], HasId(row.id)) == |docs|
  {
    assert (docs + [row])[|docs|] == row;
    assert forall d | d in docs :: d.id <= lastId;
  }

  function NewText(text: string, hash: string): Fields {
    Fields(None, Some(text), Some(hash), None, map[])
  }

  /** Updating the text of the row that is last in the table. */
  lemma UpdateLast(tok: Tokenizer, s: Store, docs: seq<Doc>, row: Doc, text: string, hash: string)
    requires s.docs == docs + [row] && !Clashes(docs, row.url, hash)
    ensures UpdateDocument(tok, s, row.url, NewText(text, hash)).1 == Done(true)
    ensures UpdateDocument(tok, s, row.url, NewText(text, hash)).0.docs
         == docs + [row.(text := text, textHash := hash)]
  {
    FoundLast(docs, row);
    assert DropAt(s.docs, |docs|) == docs;
    var row' := Written(row, NewText(text, hash));
    assert row' == row.(text := text, textHash := hash);
    assert (docs + [row])[|docs| := row'] == docs + [row'];
  }

  lemma ReadsOld(codec: TextCodec, docs: seq<Doc>, row: Doc, lastId: int, text: string)
    requires IdsGrow(docs, lastId) && row.id == lastId + 1
    requires row.compressed == Compressed(Some(codec), text) && Kept(Some(codec), text)
    ensures Fetch(Some(codec), docs + [row], HasId(row.id)) == Found(row.(text := text))
  {
    FoundById(docs, row, lastId);
  }

  lemma UpdatedIsListed(tok: Tokenizer, s: Store, url: string, f: Fields, row: Doc, term: string)
    requires Consistent(tok, s) && row in UpdateDocument(tok, s, url, f).0.docs
    ensures Listed(UpdateDocument(tok, s, url, f).0.index, term, row.id) <==> HasTerm(tok, row.title, row.text, term)
  {
    UpdateKeeps(tok, s, url, f);
    LookupOfDoc(tok, UpdateDocument(tok, s, url, f).0, row, term);
  }

  /** A document whose text was updated under compression is found by its new terms and read with its old text. */
  lemma UpdatedTextIsNotRead(
    tok: Tokenizer, codec: TextCodec, s: Store, d: Doc, text: string, hash: string, term: string
  )
    requires Consistent(tok, s) && !Clashes(s.docs, d.url, d.textHash) && !Clashes(s.docs, d.url, hash)
    requires d.compressed == Compressed(Some(codec), d.text) && Kept(Some(codec), d.text) && d.text != text
    ensures var (s', r) := UpdateDocument(tok, AddDocument(tok, s, d).0, d.url, NewText(text, hash));
            var row := d.(id := s.lastId + 1, text := text, textHash := hash);
            && r == Done(true) && s'.docs == s.docs + [row]
            && (Listed(s'.index, term, row.id) <==> HasTerm(tok, d.title, text, term))
            && Fetch(Some(codec), s'.docs, HasId(row.id)) == Found(row.(text := d.text))
  {
    var s1 := AddDocument(tok, s, d).0;
    var row := d.(id := s.lastId + 1, text := text, textHash := hash);
    AddKeeps(tok, s, d);
    UpdateLast(tok, s1, s.docs, d.(id := s.lastId + 1), text, hash);
    assert (s.docs + [row])[|s.docs|] == row;
    UpdatedIsListed(tok, s1, d.url, NewText(text, hash), row, term);
    ReadsOld(codec, s.docs, row, s.lastId, d.text);
  }
}
