/** The credit sync manager of one node together with its store. */
module CreditSyncManager {
  import opened CreditSync

  class CreditSyncManager {
    const cfg: Config
    var rows: Rows
    var sameOwnerPeers: map<string, real>   // peer id -> time of the last sync

    ghost predicate Valid()
      reads this
    {
      forall p | p in rows :: rows[p].peerId == p
    }

    constructor (cfg: Config, stored: Rows)
      requires forall p | p in stored :: stored[p].peerId == p
      ensures Valid() && this.cfg == cfg && rows == stored && sameOwnerPeers == map[]
    {
      this.cfg := cfg;
      rows := stored;
      sameOwnerPeers := map[];
    }

    method BuildSummary(stats: Totals, now: real, signature: string) returns (s: Summary)
      ensures s.peerId == cfg.local && s.owner == cfg.owner && s.totals == stats && s.timestamp == now
      ensures s.signature == signature
    {
      s := Summary(cfg.local, cfg.owner, stats, now, signature);
    }

    method HasPeer(p: string, now: real) returns (has: bool)
      ensures has <==> p in rows && IsFresh(rows[p], now)
    {
      has := p in rows && rows[p].timestamp > now - SUMMARY_TTL;
    }

    method PeerCount(now: real) returns (n: nat)
      ensures n == |Fresh(rows, cfg.owner, now)|
    {
      n := |Fresh(rows, cfg.owner, now)|;
    }

    /** The clock is read at t1 to t4. */
    method ReceiveSummary(s: Summary, verify: bool, t1: real, t2: real, t3: real, t4: real) returns (accepted: bool)
      requires Valid()
      modifies this`rows, this`sameOwnerPeers
      ensures Valid()
      ensures accepted == Accepts(cfg, old(rows), s, verify, t1, t2, t3)
      ensures rows == Receive(cfg, old(rows), s, verify, t1, t2, t3)
      ensures sameOwnerPeers == if accepted then old(sameOwnerPeers)[s.peerId := t4] else old(sameOwnerPeers)
    {
      if cfg.owner == "" {
        return false;
      }
      if s.owner != cfg.owner {
        return false;
      }
      if s.peerId == cfg.local {
        return false;
      }
      if s.timestamp > t1 + CLOCK_TOLERANCE {
        return false;
      }
      if verify && s.signature != "" && !cfg.signatureOk(s) {
        return false;
      }
      var known := HasPeer(s.peerId, t2);
      if !known {
        var count := PeerCount(t3);
        if count >= MAX_PEER_SUMMARIES {
          return false;
        }
      }
      rows := rows[s.peerId := if s.peerId in rows then s.(owner := rows[s.peerId].owner) else s];
      sameOwnerPeers := sameOwnerPeers[s.peerId := t4];
      return true;
    }

    /** The latest of some rows. */
    method Latest(peers: set<string>) returns (best: string)
      requires peers != {} && peers <= rows.Keys
      ensures best in peers && forall p | p in peers :: rows[best].timestamp >= rows[p].timestamp
    {
      best :| best in peers;
      var left := peers - {best};
      while left != {}
        invariant best in peers && left <= peers
        invariant forall p | p in peers && p !in left :: rows[best].timestamp >= rows[p].timestamp
        decreases left
      {
        var p :| p in left;
        left := left - {p};
        if rows[p].timestamp > rows[best].timestamp {
          best := p;
        }
      }
    }

    /** ORDER BY timestamp DESC LIMIT 20. */
    method GetPeerSummaries(now: real) returns (xs: seq<Summary>)
      requires Valid()
      ensures IsSelection(rows, cfg.owner, now, xs) && |xs| <= 20
      ensures forall i, j | 0 <= i < j < |xs| :: xs[i].timestamp >= xs[j].timestamp
      ensures forall p | p in rows && rows[p].owner == cfg.owner && now - rows[p].timestamp < 72.0 * 3600.0 ::
                rows[p] in xs || (|xs| == 20 && rows[p].timestamp <= xs[19].timestamp)
    {
      var left := Fresh(rows, cfg.owner, now);
      xs := [];
      while left != {} && |xs| < MAX_PEER_SUMMARIES
        invariant IsPartial(rows, cfg.owner, now, left, xs)
        decreases left
      {
        var p := Latest(left);
        PickLatest(rows, cfg.owner, now, left, xs, p);
        left := left - {p};
        xs := xs + [rows[p]];
      }
      forall p | p in Fresh(rows, cfg.owner, now) && p in PeerIds(xs) ensures rows[p] in xs {
        var i :| 0 <= i < |xs| && PeerIds(xs)[i] == p;
        assert xs[i] in xs;
      }
    }

    /** aggregated_stats: the local totals plus every row returned by the query. */
    method AggregatedStats(local: Totals, now: real) returns (a: Aggregate)
      requires Valid()
      ensures cfg.owner == "" ==> a == Aggregate(local, local.earned - local.spent, 1)
      ensures cfg.owner != "" ==> exists xs :: IsSelection(rows, cfg.owner, now, xs) && a == Aggregated(local, xs)
    {
      var summaries := [];
      if cfg.owner != "" {
        summaries := GetPeerSummaries(now);
      }
      var total := local;
      for i := 0 to |summaries|
        invariant total == Plus(local, Total(summaries[..i]))
      {
        assert summaries[..i + 1][..i] == summaries[..i];
        total := Plus(total, summaries[i].totals);
      }
      assert summaries[..|summaries|] == summaries;
      a := Aggregate(total, total.earned - total.spent, 1 + |summaries|);
    }

    method PurgeStale(now: real) returns (deleted: nat)
      requires Valid()
      modifies this`rows
      ensures Valid() && rows == Purge(old(rows), now)
      ensures deleted == |set p | p in old(rows) && now - old(rows)[p].timestamp > 72.0 * 3600.0|
    {
      var stale := set p | p in rows && rows[p].timestamp < now - SUMMARY_TTL;
      rows := rows - stale;
      deleted := |stale|;
      assert stale == set p | p in old(rows) && now - old(rows)[p].timestamp > 72.0 * 3600.0;
    }

    method RegisterSameOwnerPeer(p: string)
      modifies this`sameOwnerPeers
      ensures sameOwnerPeers == if p == cfg.local then old(sameOwnerPeers) else old(sameOwnerPeers)[p := 0.0]
    {
      if p != cfg.local {
        sameOwnerPeers := sameOwnerPeers[p := 0.0];
      }
    }
  }
}
