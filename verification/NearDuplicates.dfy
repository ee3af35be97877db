/** The in-memory SimHash index: fingerprints in the order they were added, each with its document ids. */
module NearDuplicates {
  import opened Common
  import opened Bits
  import opened SimHash

  datatype Entry = Entry(fp: nat, ids: seq<int>)

  const MAX_ENTRIES := 500_000

  type Entries = seq<Entry>

  predicate DistinctFps(es: Entries) {
    forall i, j | 0 <= i < j < |es| :: es[i].fp != es[j].fp
  }

  /** A dict of non-empty lists. */
  predicate WellFormed(es: Entries) {
    DistinctFps(es) && forall e | e in es :: e.ids != []
  }

  ghost function Fps(es: Entries): set<nat> {
    set e | e in es :: e.fp
  }

  function HasFp(fp: nat): Entry -> bool {
    (e: Entry) => e.fp == fp
  }

  /** The position of a fingerprint's entry, or the number of entries. */
  function Find(es: Entries, fp: nat): nat {
    IndexWhere(es, HasFp(fp))
  }

  /** Dropping the oldest entries until there is room for one more. */
  function Evict(es: Entries, max: nat): Entries {
    if max > 0 && |es| >= max then es[|es| - max + 1..] else es
  }

  function Append(es: Entries, id: int, fp: nat): Entries {
    var i := Find(es, fp);
    if i < |es| then es[i := Entry(fp, es[i].ids + [id])] else es + [Entry(fp, [id])]
  }

  function AddTo(es: Entries, max: nat, id: int, fp: nat): Entries {
    Append(Evict(es, max), id, fp)
  }

  function RemoveFirst(ids: seq<int>, id: int): seq<int> {
    if ids == [] then [] else if ids[0] == id then ids[1..] else [ids[0]] + RemoveFirst(ids[1..], id)
  }

  function RemoveFrom(es: Entries, id: int, fp: nat): Entries {
    var i := Find(es, fp);
    if i == |es| then es
    else
      var ids := RemoveFirst(es[i].ids, id);
      if ids == [] then es[..i] + es[i + 1..] else es[i := Entry(fp, ids)]
  }

  /** The ids of the entries within the threshold of a fingerprint, in entry order. */
  function Matches(es: Entries, fp: nat, threshold: int): seq<int> {
    if es == [] then []
    else Matches(es[..|es| - 1], fp, threshold)
         + (if Near(fp, es[|es| - 1].fp, threshold) then es[|es| - 1].ids else [])
  }

  class SimHashIndex {
    const maxEntries: int
    var entries: Entries

    constructor (maxEntries: int)
      ensures this.maxEntries == maxEntries && entries == []
    {
      this.maxEntries := maxEntries;
      entries := [];
    }

    /** With no room for any entry the eviction loop runs out of entries to evict, and raises. */
    method Add(id: int, fp: nat) returns (raised: bool)
      modifies this`entries
      ensures raised <==> maxEntries <= 0
      ensures entries == if raised then [] else AddTo(old(entries), maxEntries, id, fp)
    {
      ghost var before, dropped := entries, 0;
      while |entries| >= maxEntries
        invariant 0 <= dropped <= |before| && entries == before[dropped..]
        invariant maxEntries <= 0 || dropped == 0 || |entries| >= maxEntries - 1
        decreases |entries|
      {
        if entries == [] {
          return true;
        }
        entries := entries[1..];
        dropped := dropped + 1;
      }
      assert entries == Evict(before, maxEntries);
      var i := Find(entries, fp);
      if i < |entries| {
        entries := entries[i := Entry(fp, entries[i].ids + [id])];
      } else {
        entries := entries + [Entry(fp, [id])];
      }
      return false;
    }

    method Remove(id: int, fp: nat)
      modifies this`entries
      ensures entries == RemoveFrom(old(entries), id, fp)
    {
      var i := Find(entries, fp);
      if i < |entries| {
        var ids := RemoveFirst(entries[i].ids, id);
        if ids == [] {
          entries := entries[..i] + entries[i + 1..];
        } else {
          entries := entries[i := Entry(fp, ids)];
        }
      }
    }

    method FindNearDuplicates(fp: nat, threshold: int) returns (matches: seq<int>)
      ensures matches == Matches(entries, fp, threshold)
    {
      matches := [];
      for i := 0 to |entries|
        invariant matches == Matches(entries[..i], fp, threshold)
      {
        assert entries[..i + 1][..i] == entries[..i];
        if Near(fp, entries[i].fp, threshold) {
          matches := matches + entries[i].ids;
        }
      }
      assert entries[..|entries|] == entries;
    }
  }

  // ---- What a search finds ----------------------------------------------------------------------------------

  /** A search finds an id exactly if it is stored under a fingerprint within the threshold. */
  lemma {:induction false} MatchesComplete(es: Entries, fp: nat, threshold: int, id: int)
    ensures id in Matches(es, fp, threshold) <==> exists e :: e in es && Near(fp, e.fp, threshold) && id in e.ids
  {
    if es != [] {
      var init, last := es[..|es| - 1], es[|es| - 1];
      assert es == init + [last];
      MatchesComplete(init, fp, threshold, id);
    }
  }

  /** Something is found exactly if a stored fingerprint is within the threshold. */
  lemma FoundIff(es: Entries, fp: nat, threshold: int)
    requires WellFormed(es)
    ensures Matches(es, fp, threshold) != [] <==> exists f :: f in Fps(es) && Near(fp, f, threshold)
  {
    if Matches(es, fp, threshold) != [] {
      var id := Matches(es, fp, threshold)[0];
      assert id in Matches(es, fp, threshold);
      MatchesComplete(es, fp, threshold, id);
      var e :| e in es && Near(fp, e.fp, threshold) && id in e.ids;
      assert e.fp in Fps(es);
    }
    if f :| f in Fps(es) && Near(fp, f, threshold) {
      var e :| e in es && e.fp == f;
      MatchesComplete(es, fp, threshold, e.ids[0]);
    }
  }

  // ---- Adding and removing ----------------------------------------------------------------------------------

  /** The index stays a dict of non-empty lists, holds what was added, and never grows beyond its capacity. */
  lemma AddKeeps(es: Entries, max: nat, id: int, fp: nat)
    requires WellFormed(es) && max > 0 && |es| <= max
    ensures var es' := AddTo(es, max, id, fp);
            && WellFormed(es') && |es'| <= max
            && fp in Fps(es') && Fps(es') <= Fps(es) + {fp}
            && (|es| < max ==> Fps(es') == Fps(es) + {fp})
  {
    var kept := Evict(es, max);
    assert WellFormed(kept) && Fps(kept) <= Fps(es);
    AppendKeeps(kept, id, fp);
  }

  lemma OldestIsDropped(es: Entries, max: nat)
    requires WellFormed(es) && |es| == max > 0
    ensures Fps(Evict(es, max)) == Fps(es) - {es[0].fp}
  {
    assert Evict(es, max) == es[1..];
    forall f | f in Fps(es) && f != es[0].fp ensures f in Fps(es[1..]) {
      var i :| 0 <= i < |es| && es[i].fp == f;
      assert es[1..][i - 1] == es[i];
    }
  }

  /** Adding loses a stored fingerprint if and only if the index is full and its oldest fingerprint is another one;
      that one is lost even where the fingerprint added was stored already and needed no room. */
  lemma AddLosesIff(es: Entries, max: nat, id: int, fp: nat)
    requires WellFormed(es) && max > 0 && |es| <= max
    ensures Fps(es) <= Fps(AddTo(es, max, id, fp)) <==> |es| < max || es[0].fp == fp
    ensures Fps(AddTo(es, max, id, fp)) == (if |es| < max then Fps(es) else Fps(es) - {es[0].fp}) + {fp}
  {
    var kept := Evict(es, max);
    assert WellFormed(kept);
    AppendKeeps(kept, id, fp);
    if |es| == max {
      OldestIsDropped(es, max);
      assert es[0].fp in Fps(es);
    }
  }

  lemma AppendKeeps(es: Entries, id: int, fp: nat)
    requires WellFormed(es)
    ensures WellFormed(Append(es, id, fp))
    ensures Fps(Append(es, id, fp)) == Fps(es) + {fp}
  {
    var i := Find(es, fp);
    var es' := Append(es, id, fp);
    if i < |es| {
      forall f | f in Fps(es) ensures f in Fps(es') {
        var j :| 0 <= j < |es| && es[j].fp == f;
        assert es'[j].fp == f && es'[j] in es';
      }
    } else {
      assert es'[|es|] in es';
      forall e | e in es ensures e in es' && e.fp != fp {
      }
    }
  }

  lemma {:induction false} RemoveLast(ids: seq<int>, id: int)
    requires id !in ids
    ensures RemoveFirst(ids + [id], id) == ids
  {
    if ids != [] {
      assert (ids + [id])[1..] == ids[1..] + [id];
      RemoveLast(ids[1..], id);
    }
  }

  lemma {:induction false} RemoveOne(ids: seq<int>, id: int)
    requires id in ids
    ensures multiset(RemoveFirst(ids, id)) == multiset(ids) - multiset{id}
  {
    assert ids == [ids[0]] + ids[1..];
    if ids[0] != id {
      RemoveOne(ids[1..], id);
    }
  }

  lemma {:induction false} MatchesConcat(a: Entries, b: Entries, fp: nat, threshold: int)
    ensures Matches(a + b, fp, threshold) == Matches(a, fp, threshold) + Matches(b, fp, threshold)
  {
    if b == [] {
      assert a + b == a;
    } else {
      assert (a + b)[..|a + b| - 1] == a + b[..|b| - 1];
      MatchesConcat(a, b[..|b| - 1], fp, threshold);
    }
  }

  /** What one entry gives to a search. */
  function EntryMatches(e: Entry, fp: nat, threshold: int): seq<int> {
    if Near(fp, e.fp, threshold) then e.ids else []
  }

  lemma MatchesAround(a: Entries, e: Entry, b: Entries, fp: nat, threshold: int)
    ensures Matches(a + [e] + b, fp, threshold)
         == Matches(a, fp, threshold) + EntryMatches(e, fp, threshold) + Matches(b, fp, threshold)
  {
    MatchesConcat(a + [e], b, fp, threshold);
    assert (a + [e])[..|a|] == a;
  }

  /** An entry's ids with none left make no entry. */
  function EntryOf(fp: nat, ids: seq<int>): Entries {
    if ids == [] then [] else [Entry(fp, ids)]
  }

  lemma RemovedAround(a: Entries, e: Entry, b: Entries, id: int)
    requires WellFormed(a + [e] + b)
    ensures RemoveFrom(a + [e] + b, id, e.fp) == a + EntryOf(e.fp, RemoveFirst(e.ids, id)) + b
  {
    var es := a + [e] + b;
    FindIsFirst(es, e.fp, |a|);
    assert es[..|a|] == a && es[|a| + 1..] == b && es[|a|] == e;
  }

  lemma MatchesOf(a: Entries, fp: nat, ids: seq<int>, b: Entries, query: nat, threshold: int)
    ensures Matches(a + EntryOf(fp, ids) + b, query, threshold)
         == Matches(a, query, threshold) + EntryMatches(Entry(fp, ids), query, threshold) + Matches(b, query, threshold)
  {
    if ids == [] {
      assert a + [] + b == a + b;
      MatchesConcat(a, b, query, threshold);
    } else {
      MatchesAround(a, Entry(fp, ids), b, query, threshold);
    }
  }

  lemma LessInTheMiddle(x: seq<int>, y: seq<int>, y': seq<int>, z: seq<int>, m: multiset<int>)
    requires multiset(y') == multiset(y) - m && m <= multiset(y)
    ensures multiset(x + y' + z) == multiset(x + y + z) - m
  {
  }

  lemma RemoveAround(a: Entries, e: Entry, b: Entries, id: int, query: nat, threshold: int)
    requires WellFormed(a + [e] + b) && id in e.ids
    ensures multiset(Matches(RemoveFrom(a + [e] + b, id, e.fp), query, threshold))
         == multiset(Matches(a + [e] + b, query, threshold))
            - if Near(query, e.fp, threshold) then multiset{id} else multiset{}
  {
    var ids := RemoveFirst(e.ids, id);
    RemovedAround(a, e, b, id);
    RemoveOne(e.ids, id);
    MatchesAround(a, e, b, query, threshold);
    MatchesOf(a, e.fp, ids, b, query, threshold);
    if Near(query, e.fp, threshold) {
      LessInTheMiddle(Matches(a, query, threshold), e.ids, ids, Matches(b, query, threshold), multiset{id});
    }
  }

  /** Removing a stored id takes exactly one occurrence of it out of the result of every search within the threshold
      of its fingerprint, and leaves all other results as they are. */
  lemma RemoveIsExact(es: Entries, id: int, fp: nat, query: nat, threshold: int)
    requires WellFormed(es) && exists e :: e in es && e.fp == fp && id in e.ids
    ensures multiset(Matches(RemoveFrom(es, id, fp), query, threshold))
         == multiset(Matches(es, query, threshold)) - if Near(query, fp, threshold) then multiset{id} else multiset{}
  {
    var j :| 0 <= j < |es| && es[j].fp == fp && id in es[j].ids;
    assert es == es[..j] + [es[j]] + es[j + 1..];
    RemoveAround(es[..j], es[j], es[j + 1..], id, query, threshold);
  }

  lemma {:induction false} FindIsFirst(es: Entries, fp: nat, i: nat)
    requires i < |es| && es[i].fp == fp && forall j | 0 <= j < i :: es[j].fp != fp
    ensures Find(es, fp) == i
  {
  }

  /** Removing undoes adding a new document, as long as nothing was evicted. */
  lemma RemoveUndoesAdd(es: Entries, max: nat, id: int, fp: nat)
    requires WellFormed(es) && |es| < max
    requires forall e | e in es && e.fp == fp :: id !in e.ids
    ensures RemoveFrom(AddTo(es, max, id, fp), id, fp) == es
  {
    var i := Find(es, fp);
    var es' := Append(es, id, fp);
    if i < |es| {
      FindIsFirst(es', fp, i);
      RemoveLast(es[i].ids, id);
      assert es'[i := Entry(fp, es[i].ids)] == es;
    } else {
      FindIsFirst(es', fp, |es|);
      assert es'[..|es|] + es'[|es| + 1..] == es;
    }
  }
}
