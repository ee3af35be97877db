/** The deduplicator: a table of seen URLs and, beside it, the in-memory SimHash index that a restart
    rebuilds from the table. */
module Dedup {
  import opened Common
  import opened Bits
  import opened SimHash
  import opened NearDuplicates

  const SIGN_BIT := 0x8000_0000_0000_0000
  const TWO_64 := 0x1_0000_0000_0000_0000

  /** _to_signed64. */
  function ToSigned64(val: int): int {
    if val >= SIGN_BIT then val - TWO_64 else val
  }

  /** _to_unsigned64: Python's & with the 64-bit mask is the non-negative remainder. */
  function ToUnsigned64(val: int): (u: nat)
    ensures u < TWO_64
  {
    val % TWO_64
  }

  /** The column stores every fingerprint, and gives it back. */
  lemma SignedRoundTrip(u: int, s: int)
    ensures 0 <= u < TWO_64 ==> -SIGN_BIT <= ToSigned64(u) < SIGN_BIT && ToUnsigned64(ToSigned64(u)) == u
    ensures -SIGN_BIT <= s < SIGN_BIT ==> ToSigned64(ToUnsigned64(s)) == s
  {
  }

  lemma FingerprintFits(hs: seq<nat>)
    ensures Fingerprint(hs) < TWO_64
  {
    PowersAdd(2, 2);
    PowersAdd(4, 4);
    PowersAdd(8, 8);
    PowersAdd(16, 16);
    PowersAdd(32, 32);
  }

  /** URL normalisation, SHA-256 and reading a document id off a hash are left abstract. */
  datatype Env = Env(
    normalize: string -> string, contentHash: string -> string, docId: string -> int, hashing: Hashing
  )

  function Key(env: Env, url: string): string {
    env.contentHash(env.normalize(url))
  }

  function FpOf(env: Env, text: string): nat {
    SimHashOf(env.hashing, text, SHINGLE_WIDTH)
  }

  datatype Row = Row(urlHash: string, url: string, contentHash: string, simhash: Option<int>)

  /** The table as committed, the table as the connection sees it, and the in-memory index. */
  datatype Store = Store(committed: seq<Row>, rows: seq<Row>, entries: Entries)

  predicate DistinctKeys(rows: seq<Row>) {
    forall i, j | 0 <= i < j < |rows| :: rows[i].urlHash != rows[j].urlHash
  }

  function Delete(rows: seq<Row>, key: string): seq<Row> {
    if rows == [] then []
    else Delete(rows[..|rows| - 1], key) + (if rows[|rows| - 1].urlHash == key then [] else [rows[|rows| - 1]])
  }

  /** INSERT OR REPLACE. */
  function InsertOrReplace(rows: seq<Row>, row: Row): seq<Row> {
    Delete(rows, row.urlHash) + [row]
  }

  function RowFor(env: Env, url: string, textHash: string, text: string): Row {
    Row(Key(env, url), env.normalize(url), textHash, if text == "" then None else Some(ToSigned64(FpOf(env, text))))
  }

  function MarkSeen(env: Env, s: Store, url: string, textHash: string, text: string, commit: bool): Store {
    var rows := InsertOrReplace(s.rows, RowFor(env, url, textHash, text));
    Store(if commit then rows else s.committed, rows,
          if text == "" then s.entries
          else AddTo(s.entries, MAX_ENTRIES, env.docId(Key(env, url)), FpOf(env, text)))
  }

  /** _reload_simhash_index, with the rows in the order the query returns them. */
  function Reload(env: Env, rows: seq<Row>): Entries {
    if rows == [] then []
    else
      var last := rows[|rows| - 1];
      var es := Reload(env, rows[..|rows| - 1]);
      if last.simhash.None? then es
      else AddTo(es, MAX_ENTRIES, env.docId(last.urlHash), ToUnsigned64(last.simhash.value))
  }

  /** A restart sees the committed rows, in any order. */
  ghost predicate Restarted(env: Env, s: Store, s': Store) {
    && multiset(s'.rows) == multiset(s.committed)
    && s'.committed == s'.rows
    && s'.entries == Reload(env, s'.rows)
  }

  predicate NearDuplicate(s: Store, fp: nat, threshold: int) {
    Matches(s.entries, fp, threshold) != []
  }

  // ---- The rows' fingerprints -------------------------------------------------------------------------------

  ghost function RowFps(rows: seq<Row>): set<nat> {
    set r | r in rows && r.simhash.Some? :: ToUnsigned64(r.simhash.value)
  }

  lemma {:induction false} DeleteIsFilter(rows: seq<Row>, key: string, r: Row)
    ensures r in Delete(rows, key) <==> r in rows && r.urlHash != key
  {
    if rows != [] {
      assert rows == rows[..|rows| - 1] + [rows[|rows| - 1]];
      DeleteIsFilter(rows[..|rows| - 1], key, r);
    }
  }

  lemma {:induction false} DeleteKeepsKeys(rows: seq<Row>, key: string)
    requires DistinctKeys(rows)
    ensures DistinctKeys(Delete(rows, key))
  {
    if rows != [] {
      var init := rows[..|rows| - 1];
      DeleteKeepsKeys(init, key);
      forall r | r in Delete(init, key) ensures r.urlHash != rows[|rows| - 1].urlHash {
        DeleteIsFilter(init, key, r);
      }
    }
  }

  /** INSERT OR REPLACE keeps the key unique and every other row. */
  lemma InsertKeeps(rows: seq<Row>, row: Row, r: Row)
    requires DistinctKeys(rows)
    ensures DistinctKeys(InsertOrReplace(rows, row))
    ensures r in InsertOrReplace(rows, row) <==> r == row || (r in rows && r.urlHash != row.urlHash)
  {
    DeleteKeepsKeys(rows, row.urlHash);
    forall q ensures q in Delete(rows, row.urlHash) <==> q in rows && q.urlHash != row.urlHash {
      DeleteIsFilter(rows, row.urlHash, q);
    }
  }

  /** What marking a page as seen does to the table: the row of its URL is made anew, with its content hash, and the
      rows of all other URLs stay. */
  lemma MarkedRows(env: Env, s: Store, url: string, textHash: string, text: string, commit: bool, r: Row)
    requires DistinctKeys(s.rows)
    ensures var key, s' := env.contentHash(env.normalize(url)), MarkSeen(env, s, url, textHash, text, commit);
            if r.urlHash == key
            then r in s'.rows ==> r.url == env.normalize(url) && r.contentHash == textHash
                                  && (r.simhash.Some? <==> text != "")
            else r in s'.rows <==> r in s.rows
    ensures MarkSeen(env, s, url, textHash, text, commit).committed
         == if commit then MarkSeen(env, s, url, textHash, text, commit).rows else s.committed
  {
    InsertKeeps(s.rows, RowFor(env, url, textHash, text), r);
  }

  /** After a page is marked its URL and its content are seen; any other URL is seen as before, and any other content if
      a page of another URL has it. */
  lemma MarkedIsSeen(env: Env, s: Store, url: string, textHash: string, text: string, commit: bool, k: string)
    requires DistinctKeys(s.rows)
    ensures var key, s' := env.contentHash(env.normalize(url)), MarkSeen(env, s, url, textHash, text, commit);
            && ((exists r | r in s'.rows :: r.urlHash == k) <==> k == key || exists r | r in s.rows :: r.urlHash == k)
            && ((exists r | r in s'.rows :: r.contentHash == k)
                <==> k == textHash || exists r | r in s.rows :: r.contentHash == k && r.urlHash != key)
  {
    var row := RowFor(env, url, textHash, text);
    forall r ensures r in InsertOrReplace(s.rows, row) <==> r == row || (r in s.rows && r.urlHash != row.urlHash) {
      InsertKeeps(s.rows, row, r);
    }
  }

  lemma InsertedFps(rows: seq<Row>, row: Row)
    requires DistinctKeys(rows)
    ensures RowFps(InsertOrReplace(rows, row)) <= RowFps(rows) + RowFps([row])
    ensures RowFps(InsertOrReplace(rows, row)) >= RowFps([row])
    ensures (forall r | r in rows :: r.urlHash != row.urlHash) ==>
              RowFps(InsertOrReplace(rows, row)) == RowFps(rows) + RowFps([row])
  {
    forall r ensures r in InsertOrReplace(rows, row) <==> r == row || (r in rows && r.urlHash != row.urlHash) {
      InsertKeeps(rows, row, r);
    }
  }

  // ---- Every stored fingerprint is in memory ----------------------------------------------------------------

  ghost predicate Covered(s: Store) {
    && WellFormed(s.entries) && |s.entries| <= MAX_ENTRIES
    && DistinctKeys(s.rows) && DistinctKeys(s.committed)
    && RowFps(s.rows) <= Fps(s.entries)
    && RowFps(s.committed) <= Fps(s.entries)
  }

  predicate BelowCapacity(s: Store) {
    |s.entries| < 500_000
  }

  lemma RowForFps(env: Env, url: string, textHash: string, text: string)
    ensures RowFps([RowFor(env, url, textHash, text)]) == if text == "" then {} else {FpOf(env, text)}
  {
    var row := RowFor(env, url, textHash, text);
    if text != "" {
      FingerprintFits(Digests(env.hashing, Shingles(env.hashing.words(text), SHINGLE_WIDTH)));
      SignedRoundTrip(FpOf(env, text), 0);
      assert row in [row];
    }
  }

  lemma MarkedEntries(env: Env, s: Store, url: string, textHash: string, text: string, commit: bool)
    requires WellFormed(s.entries) && BelowCapacity(s)
    ensures var s' := MarkSeen(env, s, url, textHash, text, commit);
            && WellFormed(s'.entries) && |s'.entries| <= MAX_ENTRIES
            && Fps(s'.entries) == Fps(s.entries) + RowFps([RowFor(env, url, textHash, text)])
  {
    RowForFps(env, url, textHash, text);
    if text != "" {
      AddKeeps(s.entries, MAX_ENTRIES, env.docId(Key(env, url)), FpOf(env, text));
    }
  }

  lemma MarkKeepsCovered(env: Env, s: Store, url: string, textHash: string, text: string, commit: bool)
    requires Covered(s) && BelowCapacity(s)
    ensures Covered(MarkSeen(env, s, url, textHash, text, commit))
  {
    var row := RowFor(env, url, textHash, text);
    MarkedEntries(env, s, url, textHash, text, commit);
    InsertedFps(s.rows, row);
    InsertKeeps(s.rows, row, row);
  }

  lemma {:induction false} ReloadedFps(env: Env, rows: seq<Row>)
    ensures WellFormed(Reload(env, rows)) && |Reload(env, rows)| <= MAX_ENTRIES
    ensures Fps(Reload(env, rows)) <= RowFps(rows)
    ensures |RowFps(rows)| < MAX_ENTRIES ==> Fps(Reload(env, rows)) == RowFps(rows)
  {
    if rows != [] {
      var init, last := rows[..|rows| - 1], rows[|rows| - 1];
      ReloadedFps(env, init);
      assert rows == init + [last];
      RowFpsPush(init, last);
      ReloadedOne(env, init, last);
    }
  }

  lemma RowFpsPush(init: seq<Row>, last: Row)
    ensures RowFps(init + [last])
         == RowFps(init) + if last.simhash.Some? then {ToUnsigned64(last.simhash.value)} else {}
  {
    assert last in init + [last];
    forall r | r in init ensures r in init + [last] {
    }
  }

  lemma ReloadedOne(env: Env, init: seq<Row>, last: Row)
    requires var es := Reload(env, init);
             WellFormed(es) && |es| <= MAX_ENTRIES && Fps(es) <= RowFps(init)
    requires |RowFps(init)| < MAX_ENTRIES ==> Fps(Reload(env, init)) == RowFps(init)
    ensures var es := Reload(env, init + [last]);
            var added := if last.simhash.Some? then {ToUnsigned64(last.simhash.value)} else {};
            && WellFormed(es) && |es| <= MAX_ENTRIES && Fps(es) <= RowFps(init) + added
            && (|RowFps(init) + added| < MAX_ENTRIES ==> Fps(es) == RowFps(init) + added)
  {
    var es := Reload(env, init);
    assert (init + [last])[..|init|] == init;
    if last.simhash.Some? {
      var fp := ToUnsigned64(last.simhash.value);
      AddKeeps(es, MAX_ENTRIES, env.docId(last.urlHash), fp);
      SubsetSize(RowFps(init), RowFps(init) + {fp});
      EntryCount(es);
    }
  }

  /** A dict has as many entries as keys. */
  lemma {:induction false} EntryCount(es: Entries)
    requires DistinctFps(es)
    ensures |Fps(es)| == |es|
  {
    if es != [] {
      var init, last := es[..|es| - 1], es[|es| - 1];
      EntryCount(init);
      assert es == init + [last];
      assert Fps(es) == Fps(init) + {last.fp};
      assert last.fp !in Fps(init);
    }
  }

  lemma {:induction false} KeyOnce(rows: seq<Row>, r: Row)
    requires DistinctKeys(rows)
    ensures multiset(rows)[r] <= 1
  {
    if rows != [] {
      var init, last := rows[..|rows| - 1], rows[|rows| - 1];
      KeyOnce(init, r);
      assert rows == init + [last];
      assert last !in init;
    }
  }

  lemma TwoCopies(rows: seq<Row>, i: nat, j: nat)
    requires i < j < |rows| && rows[i] == rows[j]
    ensures multiset(rows)[rows[i]] >= 2
  {
    assert rows == rows[..j] + rows[j..];
    assert rows[i] in rows[..j] && rows[j] in rows[j..];
  }

  /** Neither the fingerprints nor the uniqueness of keys depends on the order of the rows. */
  lemma SameRows(a: seq<Row>, b: seq<Row>)
    requires multiset(a) == multiset(b)
    ensures RowFps(a) == RowFps(b)
    ensures DistinctKeys(a) ==> DistinctKeys(b)
  {
    forall r ensures r in a <==> r in b {
      assert r in multiset(a) <==> r in multiset(b);
    }
    if DistinctKeys(a) {
      forall i: nat, j: nat | i < j < |b| ensures b[i].urlHash != b[j].urlHash {
        KeyOnce(a, b[i]);
        if b[i] == b[j] {
          TwoCopies(b, i, j);
        }
        assert b[i] in a && b[j] in a;
      }
    }
  }

  lemma RestartKeepsCovered(env: Env, s: Store, s': Store)
    requires Covered(s) && BelowCapacity(s) && Restarted(env, s, s')
    ensures Covered(s') && BelowCapacity(s') && Fps(s'.entries) == RowFps(s.committed)
  {
    SameRows(s.committed, s'.rows);
    ReloadedFps(env, s'.rows);
    EntryCount(s.entries);
    SubsetSize(RowFps(s.committed), Fps(s.entries));
    EntryCount(s'.entries);
  }

  // ---- Runs -------------------------------------------------------------------------------------------------

  datatype Step =
    | Mark(url: string, textHash: string, text: string, commit: bool)
    | Flush
    | Restart(to: Store)

  ghost predicate Enabled(env: Env, s: Store, step: Step) {
    BelowCapacity(s) && (step.Restart? ==> Restarted(env, s, step.to))
  }

  ghost function Apply(env: Env, s: Store, step: Step): Store {
    match step
    case Mark(url, textHash, text, commit) => MarkSeen(env, s, url, textHash, text, commit)
    case Flush => s.(committed := s.rows)
    case Restart(to) => to
  }

  /** The steps form a run in which the index always has room. */
  ghost predicate IsRun(env: Env, s: Store, steps: seq<Step>)
    decreases |steps|
  {
    steps == [] || (Enabled(env, s, steps[0]) && IsRun(env, Apply(env, s, steps[0]), steps[1..]))
  }

  ghost function Outcome(env: Env, s: Store, steps: seq<Step>): Store
    decreases |steps|
  {
    if steps == [] then s else Outcome(env, Apply(env, s, steps[0]), steps[1..])
  }

  const EMPTY := Store([], [], [])

  lemma StepKeepsCovered(env: Env, s: Store, step: Step)
    requires Covered(s) && Enabled(env, s, step)
    ensures Covered(Apply(env, s, step))
  {
    match step
    case Mark(url, textHash, text, commit) => MarkKeepsCovered(env, s, url, textHash, text, commit);
    case Flush =>
    case Restart(to) => RestartKeepsCovered(env, s, to);
  }

  lemma {:induction false} CoveredAlways(env: Env, s: Store, steps: seq<Step>)
    requires Covered(s) && IsRun(env, s, steps)
    ensures Covered(Outcome(env, s, steps))
    decreases |steps|
  {
    if steps != [] {
      StepKeepsCovered(env, s, steps[0]);
      CoveredAlways(env, Apply(env, s, steps[0]), steps[1..]);
    }
  }

  /** While the index has room, every stored fingerprint is found in memory, by itself and by anything near it. */
  lemma StoredIsFound(env: Env, steps: seq<Step>, row: Row, fp: nat, threshold: int)
    requires IsRun(env, EMPTY, steps)
    requires row in Outcome(env, EMPTY, steps).rows && row.simhash.Some?
    requires Near(fp, ToUnsigned64(row.simhash.value), threshold)
    ensures NearDuplicate(Outcome(env, EMPTY, steps), fp, threshold)
  {
    CoveredAlways(env, EMPTY, steps);
    var s := Outcome(env, EMPTY, steps);
    assert ToUnsigned64(row.simhash.value) in RowFps(s.rows);
    FoundIff(s.entries, fp, threshold);
  }

  lemma EditedFingerprint(
    env: Env, text: string, other: string, pre: seq<string>, before: seq<string>, after: seq<string>, post: seq<string>
  )
    requires env.hashing.words(text) == pre + before + post && env.hashing.words(other) == pre + after + post
    requires |pre| + |before| + |post| >= 3 && |pre| + |after| + |post| >= 3
    requires WeakBits(Digests(env.hashing, Shingles(pre + before + post, 3)), |before| + |after| + 4, 64) <= 3
    ensures Near(FpOf(env, other), FpOf(env, text), 3)
  {
    hide *;
    var xs := Digests(env.hashing, Shingles(pre + before + post, 3));
    var ys := Digests(env.hashing, Shingles(pre + after + post, 3));
    EditedDistance(env.hashing, pre, before, after, post);
    FpOfWords(env, text, pre + before + post);
    FpOfWords(env, other, pre + after + post);
    NearWithin(Fingerprint(xs), Fingerprint(ys), WeakBits(xs, |before| + |after| + 4, 64));
  }

  lemma FpOfWords(env: Env, text: string, words: seq<string>)
    requires env.hashing.words(text) == words
    ensures FpOf(env, text) == Fingerprint(Digests(env.hashing, Shingles(words, 3)))
  {
  }

  lemma EditedDistance(h: Hashing, pre: seq<string>, before: seq<string>, after: seq<string>, post: seq<string>)
    requires |pre| + |before| + |post| >= 3 && |pre| + |after| + |post| >= 3
    ensures var xs, ys := Digests(h, Shingles(pre + before + post, 3)), Digests(h, Shingles(pre + after + post, 3));
            HammingDistance(Fingerprint(xs), Fingerprint(ys)) <= WeakBits(xs, |before| + |after| + 4, 64)
  {
    hide Fingerprint, WeakBits, HammingDistance, Shingles, Digests;
    EditedText(h, pre, before, after, post, |before| + |after| + 4);
  }

  lemma NearWithin(a: nat, b: nat, bits: nat)
    requires HammingDistance(a, b) <= bits <= 3
    ensures Near(b, a, 3)
  {
    DistanceIsMetric(a, b, 0);
  }

  lemma MarkedIsFound(env: Env, steps: seq<Step>, url: string, textHash: string, text: string, commit: bool, fp: nat)
    requires IsRun(env, EMPTY, steps) && BelowCapacity(Outcome(env, EMPTY, steps)) && text != ""
    requires Near(fp, FpOf(env, text), 3)
    ensures NearDuplicate(MarkSeen(env, Outcome(env, EMPTY, steps), url, textHash, text, commit), fp, 3)
  {
    var s := Outcome(env, EMPTY, steps);
    CoveredAlways(env, EMPTY, steps);
    MarkedEntries(env, s, url, textHash, text, commit);
    RowForFps(env, url, textHash, text);
    FoundIff(MarkSeen(env, s, url, textHash, text, commit).entries, fp, 3);
  }

  /** A page is marked as seen, then one run of words of its text is replaced: the new text is a near duplicate unless
      more than three bits of the old fingerprint have a weight within reach of the edit. */
  lemma EditedPageIsFound(
    env: Env, steps: seq<Step>, url: string, textHash: string, text: string, commit: bool, other: string,
    pre: seq<string>, before: seq<string>, after: seq<string>, post: seq<string>
  )
    requires IsRun(env, EMPTY, steps) && BelowCapacity(Outcome(env, EMPTY, steps)) && text != ""
    requires env.hashing.words(text) == pre + before + post && env.hashing.words(other) == pre + after + post
    requires |pre| + |before| + |post| >= 3 && |pre| + |after| + |post| >= 3
    requires WeakBits(Digests(env.hashing, Shingles(pre + before + post, 3)), |before| + |after| + 4, 64) <= 3
    ensures NearDuplicate(MarkSeen(env, Outcome(env, EMPTY, steps), url, textHash, text, commit), FpOf(env, other), 3)
  {
    EditedFingerprint(env, text, other, pre, before, after, post);
    MarkedIsFound(env, steps, url, textHash, text, commit, FpOf(env, other));
  }

  // ---- Restarts ---------------------------------------------------------------------------------------------

  /** A restart after a flush forgets no row; without one it forgets exactly what was not committed. */
  lemma FlushedSurvives(env: Env, s: Store, to: Store, r: Row)
    ensures Restarted(env, Apply(env, s, Flush), to) ==> (r in to.rows <==> r in s.rows)
    ensures Restarted(env, s, to) ==> (r in to.rows <==> r in s.committed)
  {
    assert r in to.rows <==> r in multiset(to.rows);
    assert r in s.rows <==> r in multiset(s.rows);
    assert r in s.committed <==> r in multiset(s.committed);
  }

  /** A restart never adds a near-duplicate match. */
  lemma RestartNeverAdds(env: Env, steps: seq<Step>, to: Store, fp: nat, threshold: int)
    requires IsRun(env, EMPTY, steps)
    requires Restarted(env, Outcome(env, EMPTY, steps), to)
    requires NearDuplicate(to, fp, threshold)
    ensures NearDuplicate(Outcome(env, EMPTY, steps), fp, threshold)
  {
    CoveredAlways(env, EMPTY, steps);
    var s := Outcome(env, EMPTY, steps);
    SameRows(s.committed, to.rows);
    ReloadedFps(env, to.rows);
    FoundIff(to.entries, fp, threshold);
    FoundIff(s.entries, fp, threshold);
  }

  /** Two indexes say the same of every fingerprint at every threshold. */
  ghost predicate SameAnswers(a: Entries, b: Entries) {
    forall fp: nat, t: int :: (Matches(a, fp, t) != []) == (Matches(b, fp, t) != [])
  }

  lemma SameFpsSameAnswer(a: Entries, b: Entries, fp: nat, t: int)
    requires WellFormed(a) && WellFormed(b) && Fps(a) == Fps(b)
    ensures (Matches(a, fp, t) != []) == (Matches(b, fp, t) != [])
  {
    FoundIff(a, fp, t);
    FoundIff(b, fp, t);
  }

  lemma SameAnswersSubset(a: Entries, b: Entries)
    requires WellFormed(a) && WellFormed(b) && SameAnswers(a, b)
    ensures Fps(a) <= Fps(b)
  {
    forall f | f in Fps(a) ensures f in Fps(b) {
      DistanceIsMetric(f, f, f);
      FoundIff(a, f, 0);
      FoundIff(b, f, 0);
      assert Matches(b, f, 0) != [];
      var g :| g in Fps(b) && Near(f, g, 0);
      DistanceIsMetric(f, g, f);
    }
  }

  lemma SameAnswersIff(a: Entries, b: Entries)
    requires WellFormed(a) && WellFormed(b)
    ensures SameAnswers(a, b) <==> Fps(a) == Fps(b)
  {
    if SameAnswers(a, b) {
      SameAnswersSubset(a, b);
      SameAnswersSubset(b, a);
    }
    if Fps(a) == Fps(b) {
      forall fp: nat, t: int ensures (Matches(a, fp, t) != []) == (Matches(b, fp, t) != []) {
        SameFpsSameAnswer(a, b, fp, t);
      }
    }
  }

  /** A restart changes no near-duplicate answer exactly if the index holds no fingerprint but those of the
      committed rows. */
  lemma RestartSameIff(env: Env, s: Store, to: Store)
    requires Covered(s) && BelowCapacity(s) && Restarted(env, s, to)
    ensures SameAnswers(s.entries, to.entries) <==> Fps(s.entries) == RowFps(s.committed)
  {
    RestartKeepsCovered(env, s, to);
    SameAnswersIff(s.entries, to.entries);
  }

  /** The index and the visible rows hold the same fingerprints. */
  ghost predicate InStep(s: Store) {
    Covered(s) && Fps(s.entries) == RowFps(s.rows)
  }

  /** Marking a URL keeps them in step exactly if no fingerprint disappears from the rows: the URL is new, or
      the replaced row's fingerprint is still in some row. */
  lemma MarkInStepIff(env: Env, s: Store, url: string, textHash: string, text: string, commit: bool)
    requires InStep(s) && BelowCapacity(s)
    ensures InStep(MarkSeen(env, s, url, textHash, text, commit))
      <==> RowFps(s.rows) <= RowFps(InsertOrReplace(s.rows, RowFor(env, url, textHash, text)))
  {
    MarkKeepsCovered(env, s, url, textHash, text, commit);
    MarkedEntries(env, s, url, textHash, text, commit);
    InsertedFps(s.rows, RowFor(env, url, textHash, text));
  }

  predicate NewUrl(env: Env, s: Store, step: Step) {
    step.Mark? ==> forall r | r in s.rows :: r.urlHash != Key(env, step.url)
  }

  /** No URL is marked while it is in the table. */
  ghost predicate NoneMarkedTwice(env: Env, s: Store, steps: seq<Step>)
    decreases |steps|
  {
    steps == [] || (NewUrl(env, s, steps[0]) && NoneMarkedTwice(env, Apply(env, s, steps[0]), steps[1..]))
  }

  lemma StepInStep(env: Env, s: Store, step: Step)
    requires InStep(s) && Enabled(env, s, step) && NewUrl(env, s, step)
    ensures InStep(Apply(env, s, step))
  {
    match step
    case Mark(url, textHash, text, commit) =>
      InsertedFps(s.rows, RowFor(env, url, textHash, text));
      MarkInStepIff(env, s, url, textHash, text, commit);
    case Flush =>
    case Restart(to) =>
      RestartKeepsCovered(env, s, to);
      SameRows(s.committed, to.rows);
  }

  lemma {:induction false} InStepAlways(env: Env, s: Store, steps: seq<Step>)
    requires InStep(s) && IsRun(env, s, steps) && NoneMarkedTwice(env, s, steps)
    ensures InStep(Outcome(env, s, steps))
    decreases |steps|
  {
    if steps != [] {
      StepInStep(env, s, steps[0]);
      InStepAlways(env, Apply(env, s, steps[0]), steps[1..]);
    }
  }

  /** In a run that marks no URL twice, a restart with nothing left uncommitted changes no near-duplicate answer. */
  lemma RestartInvisible(env: Env, steps: seq<Step>, to: Store)
    requires IsRun(env, EMPTY, steps) && NoneMarkedTwice(env, EMPTY, steps)
    requires Enabled(env, Outcome(env, EMPTY, steps), Restart(to))
    requires Outcome(env, EMPTY, steps).committed == Outcome(env, EMPTY, steps).rows
    ensures SameAnswers(to.entries, Outcome(env, EMPTY, steps).entries)
  {
    InStepAlways(env, EMPTY, steps);
    RestartSameIff(env, Outcome(env, EMPTY, steps), to);
  }
}
