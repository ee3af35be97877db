/** The documents table and the full-text index that its triggers maintain. */
module DocumentStore {
  import opened Common

  type Blob = seq<bv8>

  /** A row; `compressed` is the compressed text, and `recrawl` holds the recrawl columns that are not null. */
  datatype Doc = Doc(
    id: int, url: string, title: string, text: string, language: Option<string>, rawHtmlHash: string, textHash: string,
    crawledAt: real, compressed: Option<Blob>, jsRequired: bool, recrawl: map<string, string>
  )

  datatype Column = Title | Text

  /** One occurrence of a term in the index. */
  datatype Posting = Posting(term: string, column: Column, docId: int, position: nat)

  /** The full-text tokenizer is left abstract. */
  type Tokenizer = string -> seq<string>

  type Index = multiset<Posting>

  function ColumnPostings(terms: seq<string>, column: Column, id: int): Index {
    if terms == [] then multiset{}
    else ColumnPostings(terms[..|terms| - 1], column, id)
         + multiset{Posting(terms[|terms| - 1], column, id, |terms| - 1)}
  }

  /** What the row (id, title, text) stands for in the index. */
  function PostingsOf(tok: Tokenizer, id: int, title: string, text: string): Index {
    ColumnPostings(tok(title), Title, id) + ColumnPostings(tok(text), Text, id)
  }

  function DocPostings(tok: Tokenizer, d: Doc): Index {
    PostingsOf(tok, d.id, d.title, d.text)
  }

  function Gather(postings: Doc -> Index, docs: seq<Doc>): Index {
    if docs == [] then multiset{} else Gather(postings, docs[..|docs| - 1]) + postings(docs[|docs| - 1])
  }

  function PostingsBy(tok: Tokenizer): Doc -> Index {
    d => DocPostings(tok, d)
  }

  /** The index built afresh from the table. */
  function Rebuilt(tok: Tokenizer, docs: seq<Doc>): Index {
    Gather(PostingsBy(tok), docs)
  }

  /** The table in the order of its ids, the index, and the last id AUTOINCREMENT gave out. */
  datatype Store = Store(docs: seq<Doc>, index: Index, lastId: int)

  const EMPTY := Store([], multiset{}, 0)

  // ---- The triggers -----------------------------------------------------------------------------------------

  function AfterInsert(tok: Tokenizer, index: Index, d: Doc): Index {
    index + DocPostings(tok, d)
  }

  function AfterDelete(tok: Tokenizer, index: Index, d: Doc): Index {
    index - DocPostings(tok, d)
  }

  function AfterUpdate(tok: Tokenizer, index: Index, old_: Doc, new_: Doc): Index {
    AfterInsert(tok, AfterDelete(tok, index, old_), new_)
  }

  // ---- The operations ---------------------------------------------------------------------------------------

  predicate Clashes(docs: seq<Doc>, url: string, textHash: string) {
    exists d | d in docs :: d.url == url || d.textHash == textHash
  }

  /** add_document: the new id, or None for a duplicate. */
  function AddDocument(tok: Tokenizer, s: Store, d: Doc): (Store, Option<int>) {
    if Clashes(s.docs, d.url, d.textHash) then (s, None)
    else
      var row := d.(id := s.lastId + 1);
      (Store(s.docs + [row], AfterInsert(tok, s.index, row), row.id), Some(row.id))
  }

  function HasUrl(url: string): Doc -> bool {
    (d: Doc) => d.url == url
  }

  function HasId(id: int): Doc -> bool {
    (d: Doc) => d.id == id
  }

  function DropAt(docs: seq<Doc>, i: nat): seq<Doc>
    requires i < |docs|
  {
    docs[..i] + docs[i + 1..]
  }

  function DeleteAt(tok: Tokenizer, s: Store, i: nat): (Store, bool)
    requires i <= |s.docs|
  {
    if i == |s.docs| then (s, false)
    else (s.(docs := DropAt(s.docs, i), index := AfterDelete(tok, s.index, s.docs[i])), true)
  }

  function DeleteDocument(tok: Tokenizer, s: Store, id: int): (Store, bool) {
    DeleteAt(tok, s, IndexWhere(s.docs, HasId(id)))
  }

  function SoftDelete(tok: Tokenizer, s: Store, url: string): (Store, bool) {
    DeleteAt(tok, s, IndexWhere(s.docs, HasUrl(url)))
  }

  /** update_document's arguments; what is None is not written. */
  datatype Fields = Fields(
    title: Option<string>, text: Option<string>, textHash: Option<string>, rawHtmlHash: Option<string>,
    recrawl: map<string, string>
  )

  function Or<T>(o: Option<T>, x: T): T {
    if o.Some? then o.value else x
  }

  function Written(d: Doc, f: Fields): Doc {
    d.(title := Or(f.title, d.title), text := Or(f.text, d.text), textHash := Or(f.textHash, d.textHash),
       rawHtmlHash := Or(f.rawHtmlHash, d.rawHtmlHash), recrawl := d.recrawl + f.recrawl)
  }

  datatype Updated = Done(updated: bool) | IntegrityError

  const NO_FIELDS := Fields(None, None, None, None, map[])

  function UpdateDocument(tok: Tokenizer, s: Store, url: string, f: Fields): (Store, Updated) {
    var i := IndexWhere(s.docs, HasUrl(url));
    if f == NO_FIELDS || i == |s.docs| then (s, Done(false))
    else
      var row := Written(s.docs[i], f);
      if exists d | d in DropAt(s.docs, i) :: d.textHash == row.textHash then (s, IntegrityError)
      else (s.(docs := s.docs[i := row], index := AfterUpdate(tok, s.index, s.docs[i], row)), Done(true))
  }

  // ---- The invariant ----------------------------------------------------------------------------------------

  predicate UniqueUrls(docs: seq<Doc>) {
    forall i, j | 0 <= i < j < |docs| :: docs[i].url != docs[j].url
  }

  predicate UniqueHashes(docs: seq<Doc>) {
    forall i, j | 0 <= i < j < |docs| :: docs[i].textHash != docs[j].textHash
  }

  predicate IdsGrow(docs: seq<Doc>, lastId: int) {
    && (forall i, j | 0 <= i < j < |docs| :: docs[i].id < docs[j].id)
    && (forall d | d in docs :: 0 < d.id <= lastId)
  }

  ghost predicate Consistent(tok: Tokenizer, s: Store) {
    && s.lastId >= 0
    && UniqueUrls(s.docs) && UniqueHashes(s.docs) && IdsGrow(s.docs, s.lastId)
    && s.index == Rebuilt(tok, s.docs)
  }

  lemma SwapSum<T>(a: multiset<T>, x: multiset<T>, y: multiset<T>)
    ensures a + x + y == a + y + x
  {
  }

  lemma GatherPush(postings: Doc -> Index, docs: seq<Doc>, d: Doc)
    ensures Gather(postings, docs + [d]) == Gather(postings, docs) + postings(d)
  {
    assert (docs + [d])[..|docs|] == docs;
  }

  lemma {:induction false} GatherWithout(postings: Doc -> Index, docs: seq<Doc>, i: nat)
    requires i < |docs|
    ensures Gather(postings, docs) == Gather(postings, DropAt(docs, i)) + postings(docs[i])
  {
    var n := |docs| - 1;
    if i == n {
      assert DropAt(docs, i) == docs[..n];
    } else {
      GatherWithout(postings, docs[..n], i);
      var rest := DropAt(docs[..n], i);
      assert DropAt(docs, i) == rest + [docs[n]];
      GatherPush(postings, rest, docs[n]);
      SwapSum(Gather(postings, rest), postings(docs[i]), postings(docs[n]));
    }
  }

  lemma RebuiltWithout(tok: Tokenizer, docs: seq<Doc>, i: nat)
    requires i < |docs|
    ensures Rebuilt(tok, docs) == Rebuilt(tok, DropAt(docs, i)) + DocPostings(tok, docs[i])
  {
    GatherWithout(PostingsBy(tok), docs, i);
  }

  /** The rows a trigger deletes from the index are in it: what was last indexed for the document, no more. */
  lemma DeleteIsExact(tok: Tokenizer, s: Store, i: nat)
    requires Consistent(tok, s) && i < |s.docs|
    ensures DocPostings(tok, s.docs[i]) <= s.index
    ensures AfterDelete(tok, s.index, s.docs[i]) == Rebuilt(tok, DropAt(s.docs, i))
  {
    RebuiltWithout(tok, s.docs, i);
  }

  lemma AddKeepsKeys(docs: seq<Doc>, row: Doc, lastId: int)
    requires UniqueUrls(docs) && UniqueHashes(docs) && IdsGrow(docs, lastId) && lastId >= 0
    requires !Clashes(docs, row.url, row.textHash) && row.id == lastId + 1
    ensures UniqueUrls(docs + [row]) && UniqueHashes(docs + [row]) && IdsGrow(docs + [row], lastId + 1)
  {
    assert forall i | 0 <= i < |docs| :: docs[i] in docs;
  }

  lemma InsertIsExact(tok: Tokenizer, docs: seq<Doc>, row: Doc)
    ensures AfterInsert(tok, Rebuilt(tok, docs), row) == Rebuilt(tok, docs + [row])
  {
    GatherPush(PostingsBy(tok), docs, row);
  }

  lemma InsertKeeps(tok: Tokenizer, s: Store, row: Doc, s': Store)
    requires Consistent(tok, s) && !Clashes(s.docs, row.url, row.textHash) && row.id == s.lastId + 1
    requires s'.docs == s.docs + [row] && s'.index == AfterInsert(tok, s.index, row) && s'.lastId == row.id
    ensures Consistent(tok, s')
  {
    InsertIsExact(tok, s.docs, row);
    AddKeepsKeys(s.docs, row, s.lastId);
  }

  lemma AddKeeps(tok: Tokenizer, s: Store, d: Doc)
    requires Consistent(tok, s)
    ensures Consistent(tok, AddDocument(tok, s, d).0)
  {
    if !Clashes(s.docs, d.url, d.textHash) {
      InsertKeeps(tok, s, d.(id := s.lastId + 1), AddDocument(tok, s, d).0);
    }
  }

  lemma DroppedAt(docs: seq<Doc>, i: nat, j: nat)
    requires i < |docs| && j < |docs| - 1
    ensures DropAt(docs, i)[j] == docs[if j < i then j else j + 1]
  {
  }

  lemma DropKeepsKeys(docs: seq<Doc>, i: nat, lastId: int)
    requires UniqueUrls(docs) && UniqueHashes(docs) && IdsGrow(docs, lastId) && i < |docs|
    ensures UniqueUrls(DropAt(docs, i)) && UniqueHashes(DropAt(docs, i)) && IdsGrow(DropAt(docs, i), lastId)
  {
    var rest := DropAt(docs, i);
    forall j: nat | j < |rest| ensures rest[j] == docs[if j < i then j else j + 1] {
      DroppedAt(docs, i, j);
    }
  }

  lemma DeleteKeeps(tok: Tokenizer, s: Store, i: nat)
    requires Consistent(tok, s) && i <= |s.docs|
    ensures Consistent(tok, DeleteAt(tok, s, i).0)
  {
    if i < |s.docs| {
      DeleteIsExact(tok, s, i);
      DropKeepsKeys(s.docs, i, s.lastId);
    }
  }

  lemma ReplacedRebuilt(tok: Tokenizer, docs: seq<Doc>, i: nat, row: Doc)
    requires i < |docs|
    ensures Rebuilt(tok, docs[i := row]) == Rebuilt(tok, DropAt(docs, i)) + DocPostings(tok, row)
  {
    RebuiltWithout(tok, docs[i := row], i);
    assert DropAt(docs[i := row], i) == DropAt(docs, i);
  }

  lemma ReplaceKeeps(tok: Tokenizer, s: Store, i: nat, row: Doc, s': Store)
    requires Consistent(tok, s) && i < |s.docs| && row.url == s.docs[i].url && row.id == s.docs[i].id
    requires forall d | d in DropAt(s.docs, i) :: d.textHash != row.textHash
    requires s' == Store(s.docs[i := row], AfterUpdate(tok, s.index, s.docs[i], row), s.lastId)
    ensures Consistent(tok, s')
  {
    DeleteIsExact(tok, s, i);
    ReplacedRebuilt(tok, s.docs, i, row);
    UpdateKeepsKeys(s.docs, i, row, s.lastId);
  }

  /** An update, also a rejected one, keeps the keys unique and the index in step. */
  lemma UpdateKeeps(tok: Tokenizer, s: Store, url: string, f: Fields)
    requires Consistent(tok, s)
    ensures Consistent(tok, UpdateDocument(tok, s, url, f).0)
  {
    var i := IndexWhere(s.docs, HasUrl(url));
    if UpdateDocument(tok, s, url, f).1 == Done(true) {
      ReplaceKeeps(tok, s, i, Written(s.docs[i], f), UpdateDocument(tok, s, url, f).0);
    }
  }

  lemma UpdateKeepsKeys(docs: seq<Doc>, i: nat, row: Doc, lastId: int)
    requires UniqueUrls(docs) && UniqueHashes(docs) && IdsGrow(docs, lastId)
    requires i < |docs| && row.url == docs[i].url && row.id == docs[i].id
    requires forall d | d in DropAt(docs, i) :: d.textHash != row.textHash
    ensures UniqueUrls(docs[i := row]) && UniqueHashes(docs[i := row]) && IdsGrow(docs[i := row], lastId)
  {
    forall j | 0 <= j < |docs| && j != i ensures docs[j].textHash != row.textHash {
      var rest := DropAt(docs, i);
      assert docs[j] == rest[if j < i then j else j - 1];
    }
    assert docs[i] in docs;
  }

  // ---- Every run --------------------------------------------------------------------------------------------

  datatype Step =
    | Add(d: Doc)
    | Update(url: string, f: Fields)
    | Delete(id: int)
    | Forget(url: string)

  function Apply(tok: Tokenizer, s: Store, step: Step): Store {
    match step
    case Add(d) => AddDocument(tok, s, d).0
    case Update(url, f) => UpdateDocument(tok, s, url, f).0
    case Delete(id) => DeleteDocument(tok, s, id).0
    case Forget(url) => SoftDelete(tok, s, url).0
  }

  function Outcome(tok: Tokenizer, s: Store, steps: seq<Step>): Store {
    if steps == [] then s else Apply(tok, Outcome(tok, s, steps[..|steps| - 1]), steps[|steps| - 1])
  }

  lemma StepKeeps(tok: Tokenizer, s: Store, step: Step)
    requires Consistent(tok, s)
    ensures Consistent(tok, Apply(tok, s, step))
  {
    match step
    case Add(d) => AddKeeps(tok, s, d);
    case Update(url, f) => UpdateKeeps(tok, s, url, f);
    case Delete(id) => DeleteKeeps(tok, s, IndexWhere(s.docs, HasId(id)));
    case Forget(url) => DeleteKeeps(tok, s, IndexWhere(s.docs, HasUrl(url)));
  }

  lemma {:induction false} ConsistentAlways(tok: Tokenizer, steps: seq<Step>)
    ensures Consistent(tok, Outcome(tok, EMPTY, steps))
  {
    if steps != [] {
      var n := |steps| - 1;
      ConsistentAlways(tok, steps[..n]);
      StepKeeps(tok, Outcome(tok, EMPTY, steps[..n]), steps[n]);
    }
  }

  // ---- Lookups ----------------------------------------------------------------------------------------------

  /** The documents the index lists under a term. */
  ghost predicate Listed(index: Index, term: string, id: int) {
    exists c: Column, n: nat :: Posting(term, c, id, n) in index
  }

  lemma {:induction false} ColumnLists(terms: seq<string>, column: Column, id: int, p: Posting)
    ensures p in ColumnPostings(terms, column, id)
      <==> p.column == column && p.docId == id && p.position < |terms| && terms[p.position] == p.term
  {
    if terms != [] {
      ColumnLists(terms[..|terms| - 1], column, id, p);
    }
  }

  lemma {:induction false} GatherLists(postings: Doc -> Index, docs: seq<Doc>, p: Posting)
    ensures p in Gather(postings, docs) <==> exists d :: d in docs && p in postings(d)
  {
    if docs != [] {
      var init, last := docs[..|docs| - 1], docs[|docs| - 1];
      GatherLists(postings, init, p);
      assert docs == init + [last];
    }
  }

  /** At any time a term lookup finds the documents a scan of the table finds. */
  lemma LookupAgreesWithScan(tok: Tokenizer, steps: seq<Step>, term: string, id: int)
    ensures var s := Outcome(tok, EMPTY, steps);
            Listed(s.index, term, id)
            <==> exists d :: d in s.docs && d.id == id && (term in tok(d.title) || term in tok(d.text))
  {
    var s := Outcome(tok, EMPTY, steps);
    ConsistentAlways(tok, steps);
    if Listed(s.index, term, id) {
      var c: Column, n: nat :| Posting(term, c, id, n) in s.index;
      ListedIsInDoc(tok, s.docs, Posting(term, c, id, n));
    }
    if d :| d in s.docs && d.id == id && (term in tok(d.title) || term in tok(d.text)) {
      DocIsListed(tok, s.docs, d, term);
    }
  }

  lemma ListedIsInDoc(tok: Tokenizer, docs: seq<Doc>, p: Posting)
    requires p in Rebuilt(tok, docs)
    ensures exists d :: d in docs && d.id == p.docId && (p.term in tok(d.title) || p.term in tok(d.text))
  {
    GatherLists(PostingsBy(tok), docs, p);
    var d :| d in docs && p in PostingsBy(tok)(d);
    ColumnLists(tok(d.title), Title, d.id, p);
    ColumnLists(tok(d.text), Text, d.id, p);
  }

  lemma DocIsListed(tok: Tokenizer, docs: seq<Doc>, d: Doc, term: string)
    requires d in docs && (term in tok(d.title) || term in tok(d.text))
    ensures Listed(Rebuilt(tok, docs), term, d.id)
  {
    var column := if term in tok(d.title) then Title else Text;
    var terms := if term in tok(d.title) then tok(d.title) else tok(d.text);
    var n: nat :| n < |terms| && terms[n] == term;
    var p := Posting(term, column, d.id, n);
    ColumnLists(terms, column, d.id, p);
    GatherLists(PostingsBy(tok), docs, p);
    assert p in PostingsBy(tok)(d);
  }

  predicate HasTerm(tok: Tokenizer, title: string, text: string, term: string) {
    term in tok(title) || term in tok(text)
  }

  lemma LookupOfDoc(tok: Tokenizer, s: Store, d: Doc, term: string)
    requires Consistent(tok, s) && d in s.docs
    ensures Listed(s.index, term, d.id) <==> HasTerm(tok, d.title, d.text, term)
  {
    if Listed(s.index, term, d.id) {
      var c: Column, n: nat :| Posting(term, c, d.id, n) in s.index;
      ListedIsInDoc(tok, s.docs, Posting(term, c, d.id, n));
    }
    if HasTerm(tok, d.title, d.text, term) {
      DocIsListed(tok, s.docs, d, term);
    }
  }

  lemma LookupOfNone(tok: Tokenizer, s: Store, term: string, id: int)
    requires Consistent(tok, s) && forall d | d in s.docs :: d.id != id
    ensures !Listed(s.index, term, id)
  {
    if Listed(s.index, term, id) {
      var c: Column, n: nat :| Posting(term, c, id, n) in s.index;
      ListedIsInDoc(tok, s.docs, Posting(term, c, id, n));
    }
  }

  /** A document added is found under exactly the terms of its title and text. */
  lemma AddedIsFound(tok: Tokenizer, s: Store, d: Doc, term: string)
    requires Consistent(tok, s) && !Clashes(s.docs, d.url, d.textHash)
    ensures var (s', id) := AddDocument(tok, s, d);
            id.Some? && (Listed(s'.index, term, id.value) <==> HasTerm(tok, d.title, d.text, term))
  {
    AddKeeps(tok, s, d);
    var s' := AddDocument(tok, s, d).0;
    var row := d.(id := s.lastId + 1);
    assert s'.docs[|s.docs|] == row;
    LookupOfDoc(tok, s', row, term);
  }

  /** A document updated is found under exactly the terms of what was written and what was kept. */
  lemma UpdatedIsFound(tok: Tokenizer, s: Store, url: string, f: Fields, term: string)
    requires Consistent(tok, s) && UpdateDocument(tok, s, url, f).1 == Done(true)
    ensures exists d :: d in s.docs && d.url == url
              && (Listed(UpdateDocument(tok, s, url, f).0.index, term, d.id)
                  <==> HasTerm(tok, Or(f.title, d.title), Or(f.text, d.text), term))
  {
    var i := IndexWhere(s.docs, HasUrl(url));
    var s' := UpdateDocument(tok, s, url, f).0;
    UpdateKeeps(tok, s, url, f);
    assert s.docs[i] in s.docs && s'.docs[i] in s'.docs;
    LookupOfDoc(tok, s', s'.docs[i], term);
  }

  lemma DroppedRows(docs: seq<Doc>, i: nat, lastId: int)
    requires i < |docs| && IdsGrow(docs, lastId)
    ensures forall d | d in docs && d.id != docs[i].id :: d in DropAt(docs, i)
    ensures forall d | d in DropAt(docs, i) :: d.id != docs[i].id
  {
    var rest := DropAt(docs, i);
    forall d | d in docs && d.id != docs[i].id ensures d in rest {
      var k :| 0 <= k < |docs| && docs[k] == d;
      assert rest[if k < i then k else k - 1] == d;
    }
  }

  /** A document deleted is found under no term, and every other as before. */
  lemma DeletedIsGone(tok: Tokenizer, s: Store, i: nat, term: string, other: Doc)
    requires Consistent(tok, s) && i < |s.docs| && other in s.docs && other.id != s.docs[i].id
    ensures !Listed(DeleteAt(tok, s, i).0.index, term, s.docs[i].id)
    ensures Listed(DeleteAt(tok, s, i).0.index, term, other.id) <==> Listed(s.index, term, other.id)
  {
    DeleteKeeps(tok, s, i);
    DroppedRows(s.docs, i, s.lastId);
    LookupOfNone(tok, DeleteAt(tok, s, i).0, term, s.docs[i].id);
    LookupOfDoc(tok, s, other, term);
    LookupOfDoc(tok, DeleteAt(tok, s, i).0, other, term);
  }

  lemma DropIsExact(docs: seq<Doc>, i: nat, d: Doc)
    requires i < |docs| && (forall j, k | 0 <= j < k < |docs| :: docs[j] != docs[k])
    ensures d in DropAt(docs, i) <==> d in docs && d != docs[i]
  {
    var rest := DropAt(docs, i);
    if d in docs && d != docs[i] {
      var k :| 0 <= k < |docs| && docs[k] == d;
      assert rest[if k < i then k else k - 1] == d;
    }
    if d in rest {
      var k :| 0 <= k < |rest| && rest[k] == d;
      assert docs[if k < i then k else k + 1] == d;
    }
  }

  lemma DeleteAtIsExact(tok: Tokenizer, s: Store, wanted: Doc -> bool, d: Doc)
    requires Consistent(tok, s)
    requires forall j, k | 0 <= j < k < |s.docs| :: !(wanted(s.docs[j]) && wanted(s.docs[k]))
    ensures var (s', deleted) := DeleteAt(tok, s, IndexWhere(s.docs, wanted));
            && (deleted <==> exists e :: e in s.docs && wanted(e))
            && (d in s'.docs <==> d in s.docs && !wanted(d))
  {
    var i := IndexWhere(s.docs, wanted);
    if i < |s.docs| {
      assert s.docs[i] in s.docs;
      DropIsExact(s.docs, i, d);
    }
  }

  /** Deleting by id or by URL removes the row with it and no other, and tells whether there was one. */
  lemma DeletesRow(tok: Tokenizer, s: Store, id: int, url: string, d: Doc)
    requires Consistent(tok, s)
    ensures var (s', deleted) := DeleteDocument(tok, s, id);
            && (deleted <==> exists e :: e in s.docs && e.id == id)
            && (d in s'.docs <==> d in s.docs && d.id != id)
    ensures var (s', deleted) := SoftDelete(tok, s, url);
            && (deleted <==> exists e :: e in s.docs && e.url == url)
            && (d in s'.docs <==> d in s.docs && d.url != url)
  {
    DeleteAtIsExact(tok, s, HasId(id), d);
    DeleteAtIsExact(tok, s, HasUrl(url), d);
  }

  // ---- What an update writes --------------------------------------------------------------------------------

  /** The new row: a column given is written, any other kept; of the recrawl columns those given are written over those
      there. */
  ghost predicate IsUpdated(d: Doc, f: Fields, row: Doc) {
    && row.id == d.id && row.url == d.url && row.language == d.language && row.crawledAt == d.crawledAt
    && row.compressed == d.compressed && row.jsRequired == d.jsRequired
    && row.title == (match f.title case Some(x) => x case None => d.title)
    && row.text == (match f.text case Some(x) => x case None => d.text)
    && row.textHash == (match f.textHash case Some(x) => x case None => d.textHash)
    && row.rawHtmlHash == (match f.rawHtmlHash case Some(x) => x case None => d.rawHtmlHash)
    && row.recrawl.Keys == d.recrawl.Keys + f.recrawl.Keys
    && forall c | c in row.recrawl :: row.recrawl[c] == if c in f.recrawl then f.recrawl[c] else d.recrawl[c]
  }

  lemma FirstWithUrl(docs: seq<Doc>, url: string, i: nat)
    requires UniqueUrls(docs) && i < |docs| && docs[i].url == url
    ensures IndexWhere(docs, HasUrl(url)) == i
  {
    var j := IndexWhere(docs, HasUrl(url));
    assert HasUrl(url)(docs[i]);
    assert HasUrl(url)(docs[j]);
  }

  lemma HashTaken(docs: seq<Doc>, i: nat, hash: string)
    requires i < |docs|
    ensures (exists d | d in DropAt(docs, i) :: d.textHash == hash)
       <==> exists j :: 0 <= j < |docs| && j != i && docs[j].textHash == hash
  {
    var rest := DropAt(docs, i);
    if j :| 0 <= j < |docs| && j != i && docs[j].textHash == hash {
      assert rest[if j < i then j else j - 1] == docs[j];
    }
    if d :| d in rest && d.textHash == hash {
      var k :| 0 <= k < |rest| && rest[k] == d;
      assert docs[if k < i then k else k + 1] == d;
    }
  }

  lemma WrittenIsUpdated(d: Doc, f: Fields)
    ensures IsUpdated(d, f, Written(d, f))
  {
  }

  lemma UpdatesRow(tok: Tokenizer, s: Store, url: string, f: Fields, i: nat)
    requires IndexWhere(s.docs, HasUrl(url)) == i < |s.docs| && f != NO_FIELDS
    ensures var (s', r), row := UpdateDocument(tok, s, url, f), Written(s.docs[i], f);
            if exists d | d in DropAt(s.docs, i) :: d.textHash == row.textHash then s' == s && r == IntegrityError
            else r == Done(true) && s'.docs == s.docs[i := row] && s'.lastId == s.lastId
  {
  }

  /** Another document has the text hash of the new row exactly if it has the one that is given. */
  lemma HashKept(docs: seq<Doc>, i: nat, f: Fields)
    requires UniqueHashes(docs) && i < |docs|
    ensures (exists j :: 0 <= j < |docs| && j != i && docs[j].textHash == Written(docs[i], f).textHash)
       <==> exists j :: 0 <= j < |docs| && j != i && f.textHash == Some(docs[j].textHash)
  {
  }

  /** Updating a stored document either writes just what is given into its row, or, where another document has the text
      hash given, changes nothing and is an error. */
  lemma UpdateWrites(tok: Tokenizer, s: Store, url: string, f: Fields, i: nat)
    requires Consistent(tok, s) && i < |s.docs| && s.docs[i].url == url
    requires f.title.Some? || f.text.Some? || f.textHash.Some? || f.rawHtmlHash.Some? || f.recrawl != map[]
    ensures var (s', r) := UpdateDocument(tok, s, url, f);
            if exists j :: 0 <= j < |s.docs| && j != i && f.textHash == Some(s.docs[j].textHash)
            then r == IntegrityError && s' == s
            else r == Done(true) && s'.lastId == s.lastId && |s'.docs| == |s.docs|
                 && IsUpdated(s.docs[i], f, s'.docs[i])
                 && forall j | 0 <= j < |s.docs| && j != i :: s'.docs[j] == s.docs[j]
  {
    hide IsUpdated, Written, UniqueHashes, UniqueUrls, UpdateDocument, DropAt;
    FirstWithUrl(s.docs, url, i);
    UpdatesRow(tok, s, url, f, i);
    WrittenIsUpdated(s.docs[i], f);
    HashTaken(s.docs, i, Written(s.docs[i], f).textHash);
    HashKept(s.docs, i, f);
  }

  /** Updating without fields, or a URL that is not stored, changes nothing. */
  lemma UpdateOfNothing(tok: Tokenizer, s: Store, url: string, f: Fields)
    requires f == Fields(None, None, None, None, map[]) || forall d | d in s.docs :: d.url != url
    ensures UpdateDocument(tok, s, url, f) == (s, Done(false))
  {
    var i := IndexWhere(s.docs, HasUrl(url));
    if i < |s.docs| {
      assert s.docs[i] in s.docs;
    }
  }
}
