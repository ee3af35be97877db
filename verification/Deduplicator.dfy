/** The deduplicator object over its table and its SimHash index. */
module Deduplicator {
  import opened Common
  import opened SimHash
  import opened NearDuplicates
  import opened Dedup

  class DeduplicatorDB {
    const env: Env
    var committed: seq<Row>
    var rows: seq<Row>
    const index: SimHashIndex

    ghost predicate Valid()
      reads this, index
    {
      index.maxEntries == MAX_ENTRIES
    }

    ghost function View(): Store
      reads this, index
    {
      Store(committed, rows, index.entries)
    }

    /** Opens the table, whose rows the query returns in the given order, and reloads the index. */
    constructor (env: Env, stored: seq<Row>)
      ensures Valid() && fresh(index) && this.env == env
      ensures View() == Store(stored, stored, Reload(env, stored))
    {
      this.env := env;
      committed, rows := stored, stored;
      index := new SimHashIndex(MAX_ENTRIES);
      new;
      for i := 0 to |stored|
        invariant Valid() && fresh(index) && this.env == env
        invariant committed == rows == stored && index.entries == Reload(env, stored[..i])
      {
        assert stored[..i + 1][..i] == stored[..i];
        if stored[i].simhash.Some? {
          var fp := ToUnsigned64(stored[i].simhash.value);
          var _ := index.Add(env.docId(stored[i].urlHash), fp);
        }
      }
      assert stored[..|stored|] == stored;
    }

    method IsUrlSeen(url: string) returns (seen: bool)
      ensures seen <==> exists r | r in rows :: r.urlHash == Key(env, url)
    {
      seen := exists r | r in rows :: r.urlHash == Key(env, url);
    }

    method IsContentSeen(textHash: string) returns (seen: bool)
      ensures seen <==> exists r | r in rows :: r.contentHash == textHash
    {
      seen := exists r | r in rows :: r.contentHash == textHash;
    }

    method IsNearDuplicate(text: string, threshold: int) returns (found: bool)
      ensures found == NearDuplicate(View(), FpOf(env, text), threshold)
    {
      var fp := Compute(env.hashing, text, SHINGLE_WIDTH);
      var matches := index.FindNearDuplicates(fp, threshold);
      found := |matches| > 0;
    }

    method MarkSeen(url: string, textHash: string, text: string, commit: bool)
      requires Valid()
      modifies this`rows, this`committed, index
      ensures Valid()
      ensures View() == Dedup.MarkSeen(env, old(View()), url, textHash, text, commit)
    {
      var urlHash := Key(env, url);
      var signed: Option<int> := None;
      var fp := 0;
      if text != "" {
        fp := Compute(env.hashing, text, SHINGLE_WIDTH);
        signed := Some(ToSigned64(fp));
      }
      rows := InsertOrReplace(rows, Row(urlHash, env.normalize(url), textHash, signed));
      if commit {
        committed := rows;
      }
      if signed.Some? {
        var _ := index.Add(env.docId(urlHash), fp);
      }
    }

    method Flush()
      modifies this`committed
      ensures View() == old(View()).(committed := rows)
    {
      committed := rows;
    }
  }
}
