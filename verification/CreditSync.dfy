/** Credit summaries exchanged between the nodes of one owner, and the totals each node shows. */
module CreditSync {
  import opened Common
  import Sums

  const SUMMARY_TTL := 72.0 * 3600.0
  const MAX_PEER_SUMMARIES: nat := 20
  const CLOCK_TOLERANCE := 300.0

  datatype Totals = Totals(earned: real, spent: real, score: real)

  const NOTHING := Totals(0.0, 0.0, 0.0)

  function Plus(a: Totals, b: Totals): Totals {
    Totals(a.earned + b.earned, a.spent + b.spent, a.score + b.score)
  }

  datatype Summary = Summary(peerId: string, owner: string, totals: Totals, timestamp: real, signature: string)

  /** The table of summaries, by peer id. */
  type Rows = map<string, Summary>

  /** A manager's identity; an empty owner hash means none is configured. */
  datatype Config = Config(owner: string, local: string, signatureOk: Summary -> bool)

  datatype Aggregate = Aggregate(totals: Totals, balance: real, nodeCount: nat)

  predicate IsFresh(s: Summary, now: real) {
    s.timestamp > now - SUMMARY_TTL
  }

  /** The peers of an owner whose summary is not stale. */
  function Fresh(rows: Rows, owner: string, now: real): set<string> {
    set p | p in rows && rows[p].owner == owner && IsFresh(rows[p], now)
  }

  /** store_summary: on a conflict the row keeps its owner. */
  function Upsert(rows: Rows, s: Summary): Rows {
    rows[s.peerId := if s.peerId in rows then s.(owner := rows[s.peerId].owner) else s]
  }

  function Purge(rows: Rows, now: real): Rows {
    map p | p in rows && !(rows[p].timestamp < now - SUMMARY_TTL) :: rows[p]
  }

  /** receive_summary, whose checks read the clock one after the other at t1, t2 and t3. */
  predicate Accepts(cfg: Config, rows: Rows, s: Summary, verify: bool, t1: real, t2: real, t3: real) {
    && cfg.owner != ""
    && s.owner == cfg.owner
    && s.peerId != cfg.local
    && !(s.timestamp > t1 + CLOCK_TOLERANCE)
    && !(verify && s.signature != "" && !cfg.signatureOk(s))
    && ((s.peerId in rows && IsFresh(rows[s.peerId], t2)) || |Fresh(rows, cfg.owner, t3)| < MAX_PEER_SUMMARIES)
  }

  function Receive(cfg: Config, rows: Rows, s: Summary, verify: bool, t1: real, t2: real, t3: real): Rows {
    if Accepts(cfg, rows, s, verify, t1, t2, t3) then Upsert(rows, s) else rows
  }

  // ---- The query --------------------------------------------------------------------------------------------

  function PeerIds(xs: seq<Summary>): seq<string> {
    seq(|xs|, i requires 0 <= i < |xs| => xs[i].peerId)
  }

  predicate NoRepeats(ids: seq<string>) {
    forall i, j | 0 <= i < j < |ids| :: ids[i] != ids[j]
  }

  /** SELECT ... ORDER BY timestamp DESC LIMIT 20: the latest fresh rows of the owner, each once; rows of equal
      timestamp come in any order. */
  predicate IsSelection(rows: Rows, owner: string, now: real, xs: seq<Summary>) {
    && |xs| == (if |Fresh(rows, owner, now)| < MAX_PEER_SUMMARIES then |Fresh(rows, owner, now)|
                else MAX_PEER_SUMMARIES)
    && NoRepeats(PeerIds(xs))
    && (forall i | 0 <= i < |xs| :: IsRow(rows, owner, now, xs[i]))
    && (forall i, j | 0 <= i < j < |xs| :: xs[i].timestamp >= xs[j].timestamp)
    && (forall p, i | p in Fresh(rows, owner, now) && p !in PeerIds(xs) && 0 <= i < |xs| ::
          xs[i].timestamp >= rows[p].timestamp)
  }

  predicate IsRow(rows: Rows, owner: string, now: real, x: Summary) {
    x.peerId in rows && x.peerId in Fresh(rows, owner, now) && x == rows[x.peerId]
  }

  /** The query under way: `xs` picked, `left` still to pick from. */
  predicate IsPartial(rows: Rows, owner: string, now: real, left: set<string>, xs: seq<Summary>) {
    && left <= Fresh(rows, owner, now) && |xs| + |left| == |Fresh(rows, owner, now)| && |xs| <= MAX_PEER_SUMMARIES
    && NoRepeats(PeerIds(xs))
    && (forall i | 0 <= i < |xs| :: IsRow(rows, owner, now, xs[i]) && xs[i].peerId !in left)
    && (forall p | p in Fresh(rows, owner, now) :: p in left || p in PeerIds(xs))
    && (forall i, j | 0 <= i < j < |xs| :: xs[i].timestamp >= xs[j].timestamp)
    && (forall p, i | p in left && 0 <= i < |xs| :: xs[i].timestamp >= rows[p].timestamp)
  }

  lemma PickLatest(rows: Rows, owner: string, now: real, left: set<string>, xs: seq<Summary>, p: string)
    requires IsPartial(rows, owner, now, left, xs) && |xs| < MAX_PEER_SUMMARIES
    requires p in left && rows[p].peerId == p && forall q | q in left :: rows[p].timestamp >= rows[q].timestamp
    ensures IsPartial(rows, owner, now, left - {p}, xs + [rows[p]])
  {
    assert PeerIds(xs + [rows[p]]) == PeerIds(xs) + [p];
    forall q | q in Fresh(rows, owner, now) ensures q in left - {p} || q in PeerIds(xs) + [p] {
    }
  }

  function Total(xs: seq<Summary>): Totals {
    if xs == [] then NOTHING else Plus(Total(xs[..|xs| - 1]), xs[|xs| - 1].totals)
  }

  /** aggregated_stats, from the rows the query returned. */
  function Aggregated(local: Totals, xs: seq<Summary>): Aggregate {
    var t := Plus(local, Total(xs));
    Aggregate(t, t.earned - t.spent, 1 + |xs|)
  }

  // ---- Runs of one node -------------------------------------------------------------------------------------

  /** The rows, the clock, and for each peer the last summary accepted and the last delivered. */
  datatype World = World(rows: Rows, clock: real, accepted: map<string, Summary>, delivered: map<string, Summary>)

  datatype Step =
    | Received(s: Summary, verify: bool, t1: real, t2: real, t3: real)
    | Purged(now: real)

  predicate Enabled(w: World, step: Step) {
    match step
    case Received(_, _, t1, t2, t3) => w.clock <= t1 <= t2 <= t3
    case Purged(now) => w.clock <= now
  }

  function Apply(cfg: Config, w: World, step: Step): World {
    match step
    case Received(s, verify, t1, t2, t3) =>
      World(Receive(cfg, w.rows, s, verify, t1, t2, t3), t3,
            if Accepts(cfg, w.rows, s, verify, t1, t2, t3) then w.accepted[s.peerId := s] else w.accepted,
            w.delivered[s.peerId := s])
    case Purged(now) => w.(rows := Purge(w.rows, now), clock := now)
  }

  ghost predicate IsRun(cfg: Config, w: World, steps: seq<Step>)
    decreases |steps|
  {
    steps == [] || (Enabled(w, steps[0]) && IsRun(cfg, Apply(cfg, w, steps[0]), steps[1..]))
  }

  ghost function Outcome(cfg: Config, w: World, steps: seq<Step>): World
    decreases |steps|
  {
    if steps == [] then w else Outcome(cfg, Apply(cfg, w, steps[0]), steps[1..])
  }

  predicate Start(w: World) {
    w.rows == map[] && w.accepted == map[] && w.delivered == map[]
  }

  // ---- Never more than twenty fresh summaries ---------------------------------------------------------------

  /** Time only makes summaries stale, and so does purging nothing else. */
  lemma FreshShrinks(rows: Rows, owner: string, t: real, now: real)
    requires t <= now
    ensures Fresh(rows, owner, now) <= Fresh(rows, owner, t)
    ensures |Fresh(rows, owner, now)| <= |Fresh(rows, owner, t)|
  {
    SubsetSize(Fresh(rows, owner, now), Fresh(rows, owner, t));
  }

  lemma UpsertFresh(rows: Rows, s: Summary, owner: string, now: real)
    ensures Fresh(Upsert(rows, s), owner, now) <= Fresh(rows, owner, now) + {s.peerId}
    ensures s.peerId in rows && rows[s.peerId].owner != owner ==>
              Fresh(Upsert(rows, s), owner, now) <= Fresh(rows, owner, now)
  {
  }

  lemma ReceiveAtMostTwenty(cfg: Config, rows: Rows, s: Summary, verify: bool, clock: real, t1: real, t2: real,
                            t3: real)
    requires clock <= t1 <= t2 <= t3
    requires |Fresh(rows, cfg.owner, clock)| <= 20
    ensures |Fresh(Receive(cfg, rows, s, verify, t1, t2, t3), cfg.owner, t3)| <= 20
  {
    FreshShrinks(rows, cfg.owner, clock, t2);
    FreshShrinks(rows, cfg.owner, clock, t3);
    if Accepts(cfg, rows, s, verify, t1, t2, t3) {
      var rows' := Upsert(rows, s);
      UpsertFresh(rows, s, cfg.owner, t3);
      if s.peerId in rows && IsFresh(rows[s.peerId], t2) {
        FreshShrinks(rows, cfg.owner, t2, t3);
        assert Fresh(rows', cfg.owner, t3) <= Fresh(rows, cfg.owner, t2);
        SubsetSize(Fresh(rows', cfg.owner, t3), Fresh(rows, cfg.owner, t2));
      } else {
        SubsetSize(Fresh(rows', cfg.owner, t3), Fresh(rows, cfg.owner, t3) + {s.peerId});
      }
    }
  }

  /** purge_stale changes nothing that any query at that time or later can see. */
  lemma PurgeInvisible(rows: Rows, owner: string, t: real, now: real)
    requires t <= now
    ensures Fresh(Purge(rows, t), owner, now) == Fresh(rows, owner, now)
    ensures forall p | p in Fresh(rows, owner, now) :: p in Purge(rows, t) && Purge(rows, t)[p] == rows[p]
  {
  }

  /** It removes the summaries of more than 72 hours ago, and those alone. */
  lemma PurgeRemoves(rows: Rows, now: real, p: string)
    ensures p in Purge(rows, now) <==> p in rows && now - rows[p].timestamp <= 72.0 * 3600.0
    ensures p in Purge(rows, now) ==> Purge(rows, now)[p] == rows[p]
  {
  }

  /** The query returns the same before and after a purge. */
  lemma PurgeKeepsSelections(rows: Rows, owner: string, t: real, now: real, xs: seq<Summary>)
    requires t <= now
    ensures IsSelection(Purge(rows, t), owner, now, xs) <==> IsSelection(rows, owner, now, xs)
  {
    PurgeInvisible(rows, owner, t, now);
    assert forall x :: IsRow(Purge(rows, t), owner, now, x) <==> IsRow(rows, owner, now, x);
  }

  // ---- The rows are the last accepted summaries -------------------------------------------------------------

  ghost predicate Inv(cfg: Config, w: World) {
    && |Fresh(w.rows, cfg.owner, w.clock)| <= MAX_PEER_SUMMARIES
    && (forall p | p in w.rows :: p in w.accepted && w.rows[p] == w.accepted[p])
    && (forall p | p in w.accepted :: w.accepted[p].owner == cfg.owner && w.accepted[p].peerId == p && p != cfg.local)
    && (forall p | p in w.accepted && p !in w.rows :: !IsFresh(w.accepted[p], w.clock))
  }

  lemma InvKept(cfg: Config, w: World, step: Step)
    requires Inv(cfg, w) && Enabled(w, step)
    ensures Inv(cfg, Apply(cfg, w, step))
  {
    match step
    case Received(s, verify, t1, t2, t3) =>
      ReceiveAtMostTwenty(cfg, w.rows, s, verify, w.clock, t1, t2, t3);
    case Purged(now) =>
      FreshShrinks(w.rows, cfg.owner, w.clock, now);
      PurgeInvisible(w.rows, cfg.owner, now, now);
  }

  lemma {:induction false} InvAlways(cfg: Config, w: World, steps: seq<Step>)
    requires Inv(cfg, w) && IsRun(cfg, w, steps)
    ensures Inv(cfg, Outcome(cfg, w, steps))
    decreases |steps|
  {
    if steps != [] {
      InvKept(cfg, w, steps[0]);
      InvAlways(cfg, Apply(cfg, w, steps[0]), steps[1..]);
    }
  }

  /** Each peer's last accepted summary, if it is still fresh. */
  ghost function Counted(w: World, now: real): set<string> {
    set p | p in w.accepted && now - w.accepted[p].timestamp < 72.0 * 3600.0
  }

  /** As many different ids of a set as it has elements are all of them. */
  lemma {:induction false} FillsSet(ids: seq<string>, peers: set<string>)
    requires NoRepeats(ids) && |ids| == |peers|
    requires forall i | 0 <= i < |ids| :: ids[i] in peers
    ensures forall p :: p in peers <==> p in ids
  {
    if ids != [] {
      var init, last := ids[..|ids| - 1], ids[|ids| - 1];
      assert ids == init + [last];
      FillsSet(init, peers - {last});
    }
  }

  /** The limit of the query never cuts a summary off: the query returns the last accepted summary of every
      peer whose summary is fresh, once, and nothing else. */
  lemma EachCountedOnce(cfg: Config, w: World, steps: seq<Step>, now: real, xs: seq<Summary>)
    requires Start(w) && IsRun(cfg, w, steps) && now >= Outcome(cfg, w, steps).clock
    requires IsSelection(Outcome(cfg, w, steps).rows, cfg.owner, now, xs)
    ensures var t := Outcome(cfg, w, steps);
            && NoRepeats(PeerIds(xs)) && |xs| <= 20
            && (forall p :: p in PeerIds(xs) <==> p in Counted(t, now))
            && (forall x | x in xs :: x.peerId in t.accepted && x == t.accepted[x.peerId])
  {
    InvAlways(cfg, w, steps);
    SelectionIsCounted(cfg, Outcome(cfg, w, steps), now, xs);
  }

  lemma FreshIsCounted(cfg: Config, t: World, now: real)
    requires Inv(cfg, t) && now >= t.clock
    ensures Fresh(t.rows, cfg.owner, now) == Counted(t, now)
    ensures |Counted(t, now)| <= MAX_PEER_SUMMARIES
  {
    FreshShrinks(t.rows, cfg.owner, t.clock, now);
  }

  lemma SelectionIsCounted(cfg: Config, t: World, now: real, xs: seq<Summary>)
    requires Inv(cfg, t) && now >= t.clock && IsSelection(t.rows, cfg.owner, now, xs)
    ensures NoRepeats(PeerIds(xs)) && |xs| <= MAX_PEER_SUMMARIES
    ensures forall p :: p in PeerIds(xs) <==> p in Counted(t, now)
    ensures forall x | x in xs :: x.peerId in t.accepted && x == t.accepted[x.peerId]
  {
    FreshIsCounted(cfg, t, now);
    forall i | 0 <= i < |xs| ensures xs[i].peerId in Counted(t, now) && xs[i] == t.accepted[xs[i].peerId] {
      assert IsRow(t.rows, cfg.owner, now, xs[i]);
    }
    FillsSet(PeerIds(xs), Counted(t, now));
  }

  // ---- Whose summaries are counted --------------------------------------------------------------------------

  /** The step received this summary, from another node of the owner, dated at most five minutes ahead, and signed
      properly if it was signed and verification was on. */
  predicate ReceivedValid(cfg: Config, step: Step, x: Summary) {
    && step.Received? && step.s == x
    && x.owner == cfg.owner && x.owner != "" && x.peerId != cfg.local
    && x.timestamp - step.t1 <= 300.0
    && (step.verify && x.signature != "" ==> cfg.signatureOk(x))
  }

  ghost predicate WasReceivedValid(cfg: Config, steps: seq<Step>, x: Summary) {
    exists step :: step in steps && ReceivedValid(cfg, step, x)
  }

  lemma {:induction false} AcceptedWereValid(cfg: Config, w: World, steps: seq<Step>, p: string)
    requires p in Outcome(cfg, w, steps).accepted
    ensures (p in w.accepted && Outcome(cfg, w, steps).accepted[p] == w.accepted[p])
         || WasReceivedValid(cfg, steps, Outcome(cfg, w, steps).accepted[p])
    decreases |steps|
  {
    if steps != [] {
      var w' := Apply(cfg, w, steps[0]);
      AcceptedWereValid(cfg, w', steps[1..], p);
      var x := Outcome(cfg, w, steps).accepted[p];
      if WasReceivedValid(cfg, steps[1..], x) {
        var step :| step in steps[1..] && ReceivedValid(cfg, step, x);
        assert step in steps;
      } else if !(p in w.accepted && w.accepted[p] == x) {
        assert steps[0] in steps && ReceivedValid(cfg, steps[0], x);
      }
    }
  }

  /** In every run, whatever is counted was received, from another node of the owner, with a proper signature or none
      or unverified, and not from more than five minutes ahead. */
  lemma CountedWereValid(cfg: Config, w: World, steps: seq<Step>, now: real, xs: seq<Summary>, x: Summary)
    requires Start(w) && IsRun(cfg, w, steps) && now >= Outcome(cfg, w, steps).clock
    requires IsSelection(Outcome(cfg, w, steps).rows, cfg.owner, now, xs) && x in xs
    ensures WasReceivedValid(cfg, steps, x)
    ensures now - x.timestamp < 72.0 * 3600.0
  {
    EachCountedOnce(cfg, w, steps, now, xs);
    AcceptedWereValid(cfg, w, steps, x.peerId);
    var i :| 0 <= i < |xs| && xs[i] == x;
    assert IsRow(Outcome(cfg, w, steps).rows, cfg.owner, now, xs[i]);
  }

  // ---- A row of another owner -------------------------------------------------------------------------------

  /** An accepted summary is shown exactly if its peer had no row, or one of the same owner: a row left by
      another owner keeps that owner, so the summary is stored and never counted. */
  lemma AcceptedIsShownIff(cfg: Config, rows: Rows, s: Summary, verify: bool, t1: real, t2: real, t3: real)
    requires Accepts(cfg, rows, s, verify, t1, t2, t3) && IsFresh(s, t3)
    ensures s.peerId in Fresh(Receive(cfg, rows, s, verify, t1, t2, t3), cfg.owner, t3)
      <==> s.peerId !in rows || rows[s.peerId].owner == cfg.owner
  {
  }

  // ---- Agreement between nodes ------------------------------------------------------------------------------

  /** A run among the nodes of one network: only their valid summaries are delivered. A node that has this node's own
      id may be among them. */
  ghost predicate FromNetwork(cfg: Config, ids: set<string>, steps: seq<Step>) {
    forall step | step in steps && step.Received? ::
      && step.s.peerId in ids
      && step.s.owner == cfg.owner != ""
      && step.s.timestamp <= step.t1 + CLOCK_TOLERANCE
      && (step.verify && step.s.signature != "" ==> cfg.signatureOk(step.s))
  }

  ghost predicate NetInv(cfg: Config, ids: set<string>, w: World) {
    Inv(cfg, w) && w.accepted == w.delivered - {cfg.local} && w.accepted.Keys <= ids - {cfg.local}
  }

  lemma AcceptedAmongFew(cfg: Config, ids: set<string>, w: World, step: Step)
    requires NetInv(cfg, ids, w) && Enabled(w, step) && FromNetwork(cfg, ids, [step]) && step.Received?
    requires cfg.local in ids && |ids| <= MAX_PEER_SUMMARIES + 1
    ensures Accepts(cfg, w.rows, step.s, step.verify, step.t1, step.t2, step.t3) <==> step.s.peerId != cfg.local
  {
    assert step in [step];
    var others := ids - {cfg.local};
    var p := step.s.peerId;
    if p != cfg.local && !(p in w.rows && IsFresh(w.rows[p], step.t2)) {
      assert Fresh(w.rows, cfg.owner, step.t3) <= others - {p};
      SubsetSize(Fresh(w.rows, cfg.owner, step.t3), others - {p});
    }
  }

  /** With at most 21 different ids no valid summary of another id is turned away. */
  lemma NetInvKept(cfg: Config, ids: set<string>, w: World, step: Step)
    requires NetInv(cfg, ids, w) && Enabled(w, step) && FromNetwork(cfg, ids, [step])
    requires cfg.local in ids && |ids| <= MAX_PEER_SUMMARIES + 1
    ensures NetInv(cfg, ids, Apply(cfg, w, step))
  {
    InvKept(cfg, w, step);
    if step.Received? {
      assert step in [step];
      AcceptedAmongFew(cfg, ids, w, step);
      AcceptedIsDelivered(cfg, ids, w, step);
    }
  }

  lemma AcceptedIsDelivered(cfg: Config, ids: set<string>, w: World, step: Step)
    requires NetInv(cfg, ids, w) && Enabled(w, step) && step.Received? && step.s.peerId in ids
    requires Accepts(cfg, w.rows, step.s, step.verify, step.t1, step.t2, step.t3) <==> step.s.peerId != cfg.local
    ensures var w' := Apply(cfg, w, step);
            w'.accepted == w'.delivered - {cfg.local} && w'.accepted.Keys <= ids - {cfg.local}
  {
  }

  lemma {:induction false} NetInvAlways(cfg: Config, ids: set<string>, w: World, steps: seq<Step>)
    requires NetInv(cfg, ids, w) && IsRun(cfg, w, steps) && FromNetwork(cfg, ids, steps)
    requires cfg.local in ids && |ids| <= MAX_PEER_SUMMARIES + 1
    ensures NetInv(cfg, ids, Outcome(cfg, w, steps))
    decreases |steps|
  {
    if steps != [] {
      assert steps[0] in steps;
      forall step | step in steps[1..] ensures step in steps {
      }
      NetInvKept(cfg, ids, w, steps[0]);
      NetInvAlways(cfg, ids, Apply(cfg, w, steps[0]), steps[1..]);
    }
  }

  function SetOf(ids: seq<string>): set<string> {
    set p | p in ids
  }

  /** The totals of the nodes with these ids. */
  function TotalOf(ids: seq<string>, ledger: string -> Totals): Totals {
    if ids == [] then NOTHING else Plus(TotalOf(ids[..|ids| - 1], ledger), ledger(ids[|ids| - 1]))
  }

  function DropAt(ids: seq<string>, k: nat): seq<string>
    requires k < |ids|
  {
    ids[..k] + ids[k + 1..]
  }

  lemma {:induction false} TotalDrop(ids: seq<string>, k: nat, ledger: string -> Totals)
    requires k < |ids|
    ensures TotalOf(ids, ledger) == Plus(TotalOf(DropAt(ids, k), ledger), ledger(ids[k]))
  {
    var n := |ids| - 1;
    if k == n {
      assert DropAt(ids, k) == ids[..n];
    } else {
      TotalDrop(ids[..n], k, ledger);
      var rest := DropAt(ids[..n], k);
      assert DropAt(ids, k) == rest + [ids[n]];
      assert (rest + [ids[n]])[..|rest|] == rest;
    }
  }

  lemma DropAtElements(ids: seq<string>, k: nat, p: string)
    requires k < |ids| && NoRepeats(ids)
    ensures NoRepeats(DropAt(ids, k))
    ensures p in DropAt(ids, k) <==> p in ids && p != ids[k]
  {
    var rest := DropAt(ids, k);
    assert forall i | 0 <= i < |rest| :: rest[i] == ids[if i < k then i else i + 1];
    if p in ids && p != ids[k] {
      var i :| 0 <= i < |ids| && ids[i] == p;
      assert rest[if i < k then i else i - 1] == p;
    }
  }

  lemma {:induction false} IdCount(ids: seq<string>)
    requires NoRepeats(ids)
    ensures |SetOf(ids)| == |ids|
  {
    if ids != [] {
      var init, last := ids[..|ids| - 1], ids[|ids| - 1];
      IdCount(init);
      assert ids == init + [last];
      assert SetOf(ids) == SetOf(init) + {last} && last !in SetOf(init);
    }
  }

  lemma SameCount(a: seq<string>, b: seq<string>)
    requires NoRepeats(a) && NoRepeats(b) && forall p :: p in a <==> p in b
    ensures |a| == |b|
  {
    IdCount(a);
    IdCount(b);
    assert SetOf(a) == SetOf(b);
  }

  /** The same ids in another order have the same total. */
  lemma {:induction false} SameTotal(a: seq<string>, b: seq<string>, ledger: string -> Totals)
    requires |a| == |b| && NoRepeats(a) && NoRepeats(b) && forall p :: p in a <==> p in b
    ensures TotalOf(a, ledger) == TotalOf(b, ledger)
    decreases |a|
  {
    if a != [] {
      var n := |a| - 1;
      assert a[n] in b;
      var k: nat :| k < |b| && b[k] == a[n];
      forall p ensures p in DropAt(a, n) <==> p in DropAt(b, k) {
        DropAtElements(a, n, p);
        DropAtElements(b, k, p);
      }
      SameTotal(DropAt(a, n), DropAt(b, k), ledger);
      TotalDrop(a, n, ledger);
      TotalDrop(b, k, ledger);
    }
  }

  lemma {:induction false} TotalByPeer(xs: seq<Summary>, ledger: string -> Totals)
    requires forall x | x in xs :: x.totals == ledger(x.peerId)
    ensures Total(xs) == TotalOf(PeerIds(xs), ledger)
  {
    if xs != [] {
      var n := |xs| - 1;
      assert PeerIds(xs)[..n] == PeerIds(xs[..n]);
      TotalByPeer(xs[..n], ledger);
    }
  }

  /** What was last delivered to this node from every other node states its ledger and is fresh. */
  ghost predicate UpToDate(cfg: Config, ids: seq<string>, ledger: string -> Totals, w: World, now: real) {
    forall p | p in ids && p != cfg.local ::
      p in w.delivered && w.delivered[p].totals == ledger(p) && IsFresh(w.delivered[p], now)
  }

  lemma OthersCounted(cfg: Config, ids: seq<string>, ledger: string -> Totals, t: World, now: real,
                      xs: seq<Summary>, k: nat)
    requires NoRepeats(ids) && NetInv(cfg, SetOf(ids), t) && k < |ids| && ids[k] == cfg.local
    requires now >= t.clock && UpToDate(cfg, ids, ledger, t, now)
    requires IsSelection(t.rows, cfg.owner, now, xs)
    ensures NoRepeats(PeerIds(xs)) && NoRepeats(DropAt(ids, k))
    ensures forall p :: p in PeerIds(xs) <==> p in DropAt(ids, k)
    ensures forall x | x in xs :: x.totals == ledger(x.peerId)
  {
    SelectionIsCounted(cfg, t, now, xs);
    DropAtElements(ids, k, cfg.local);
    forall p ensures p in PeerIds(xs) <==> p in DropAt(ids, k) {
      DropAtElements(ids, k, p);
    }
  }

  lemma PlusExchange(all: Totals, rest: Totals, own: Totals, others: Totals)
    requires all == Plus(rest, own) && others == rest
    ensures Plus(own, others) == all
  {
  }

  lemma SameNetworkTotal(ids: seq<string>, ledger: string -> Totals, peers: seq<string>, k: nat)
    requires k < |ids| && NoRepeats(peers) && NoRepeats(DropAt(ids, k))
    requires forall p :: p in peers <==> p in DropAt(ids, k)
    ensures Plus(ledger(ids[k]), TotalOf(peers, ledger)) == TotalOf(ids, ledger)
    ensures 1 + |peers| == |ids|
  {
    var rest := DropAt(ids, k);
    SameCount(peers, rest);
    SameTotal(peers, rest, ledger);
    TotalDrop(ids, k, ledger);
    PlusExchange(TotalOf(ids, ledger), TotalOf(rest, ledger), ledger(ids[k]), TotalOf(peers, ledger));
  }

  lemma NetworkTotal(local: string, ids: seq<string>, ledger: string -> Totals, xs: seq<Summary>, k: nat)
    requires k < |ids| && ids[k] == local
    requires NoRepeats(PeerIds(xs)) && NoRepeats(DropAt(ids, k))
    requires forall p :: p in PeerIds(xs) <==> p in DropAt(ids, k)
    requires forall x | x in xs :: x.totals == ledger(x.peerId)
    ensures Aggregated(ledger(local), xs).totals == TotalOf(ids, ledger)
    ensures Aggregated(ledger(local), xs).nodeCount == |ids|
  {
    var peers := PeerIds(xs);
    assert |peers| == |xs|;
    TotalByPeer(xs, ledger);
    SameNetworkTotal(ids, ledger, peers, k);
  }

  /** Up to 21 nodes whose ledgers are at rest, each of which was last sent every other node's current totals,
      all show the same: the sum over the nodes. */
  lemma NodesAgree(cfg: Config, ids: seq<string>, ledger: string -> Totals, w: World, steps: seq<Step>, now: real,
                   xs: seq<Summary>)
    requires NoRepeats(ids) && |ids| <= 21 && cfg.local in ids
    requires Start(w) && IsRun(cfg, w, steps) && FromNetwork(cfg, SetOf(ids), steps)
    requires now >= Outcome(cfg, w, steps).clock && UpToDate(cfg, ids, ledger, Outcome(cfg, w, steps), now)
    requires IsSelection(Outcome(cfg, w, steps).rows, cfg.owner, now, xs)
    ensures var a := Aggregated(ledger(cfg.local), xs);
            && a.totals.earned == Sums.Sum(ids, (p: string) => ledger(p).earned)
            && a.totals.spent == Sums.Sum(ids, (p: string) => ledger(p).spent)
            && a.totals.score == Sums.Sum(ids, (p: string) => ledger(p).score)
            && a.balance == a.totals.earned - a.totals.spent
            && a.nodeCount == |ids|
  {
    IdCount(ids);
    NetInvAlways(cfg, SetOf(ids), w, steps);
    var k: nat :| k < |ids| && ids[k] == cfg.local;
    OthersCounted(cfg, ids, ledger, Outcome(cfg, w, steps), now, xs, k);
    NetworkTotal(cfg.local, ids, ledger, xs, k);
    TotalBySums(ids, ledger, (p: string) => ledger(p).earned, (p: string) => ledger(p).spent,
                (p: string) => ledger(p).score);
  }

  lemma {:induction false} TotalBySums(ids: seq<string>, ledger: string -> Totals, earned: string -> real,
                                       spent: string -> real, score: string -> real)
    requires forall p :: ledger(p) == Totals(earned(p), spent(p), score(p))
    ensures TotalOf(ids, ledger) == Totals(Sums.Sum(ids, earned), Sums.Sum(ids, spent), Sums.Sum(ids, score))
  {
    if ids != [] {
      TotalBySums(ids[..|ids| - 1], ledger, earned, spent, score);
    }
  }

  // ---- Nodes that share an id -------------------------------------------------------------------------------

  lemma {:induction false} DistinctIffCounted(ids: seq<string>)
    ensures |SetOf(ids)| <= |ids|
    ensures |SetOf(ids)| == |ids| <==> NoRepeats(ids)
  {
    if ids != [] {
      var init, last := ids[..|ids| - 1], ids[|ids| - 1];
      DistinctIffCounted(init);
      assert ids == init + [last];
      assert SetOf(ids) == SetOf(init) + {last};
      if last in init {
        var i :| 0 <= i < |init| && init[i] == last;
        assert ids[i] == ids[|init|];
        assert SetOf(ids) == SetOf(init);
      }
    }
  }

  /** Some fresh summary of every other id of the network was delivered last. */
  ghost predicate HeardOfAll(cfg: Config, ids: seq<string>, w: World, now: real) {
    forall p | p in ids && p != cfg.local :: p in w.delivered && IsFresh(w.delivered[p], now)
  }

  lemma PeersAreOthers(cfg: Config, ids: seq<string>, t: World, now: real, xs: seq<Summary>)
    requires NetInv(cfg, SetOf(ids), t) && now >= t.clock && HeardOfAll(cfg, ids, t, now)
    requires IsSelection(t.rows, cfg.owner, now, xs)
    ensures NoRepeats(PeerIds(xs)) && SetOf(PeerIds(xs)) == SetOf(ids) - {cfg.local}
  {
    SelectionIsCounted(cfg, t, now, xs);
  }

  /** A node that has heard of all others counts the different ids of its network, so it counts every node, however
      many they are up to 21 ids, if and only if no two nodes share an id. */
  lemma NodesCountedIff(cfg: Config, ids: seq<string>, w: World, steps: seq<Step>, now: real, local: Totals,
                        xs: seq<Summary>)
    requires cfg.local in ids && |SetOf(ids)| <= MAX_PEER_SUMMARIES + 1
    requires Start(w) && IsRun(cfg, w, steps) && FromNetwork(cfg, SetOf(ids), steps)
    requires now >= Outcome(cfg, w, steps).clock && HeardOfAll(cfg, ids, Outcome(cfg, w, steps), now)
    requires IsSelection(Outcome(cfg, w, steps).rows, cfg.owner, now, xs)
    ensures Aggregated(local, xs).nodeCount == |SetOf(ids)|
    ensures Aggregated(local, xs).nodeCount == |ids| <==> NoRepeats(ids)
  {
    NetInvAlways(cfg, SetOf(ids), w, steps);
    PeersAreOthers(cfg, ids, Outcome(cfg, w, steps), now, xs);
    IdCount(PeerIds(xs));
    DistinctIffCounted(ids);
    assert |SetOf(ids) - {cfg.local}| == |SetOf(ids)| - 1;
  }

  ghost predicate AllCarry(id: string, steps: seq<Step>) {
    forall step | step in steps && step.Received? :: step.s.peerId == id
  }

  lemma {:induction false} NothingStored(cfg: Config, w: World, steps: seq<Step>)
    requires w.rows == map[] && AllCarry(cfg.local, steps)
    ensures Outcome(cfg, w, steps).rows == map[]
    decreases |steps|
  {
    if steps != [] {
      assert steps[0] in steps;
      forall step | step in steps[1..] ensures step in steps {
      }
      NothingStored(cfg, Apply(cfg, w, steps[0]), steps[1..]);
    }
  }

  /** Where all nodes have this node's id, it never stores anything and shows its own totals only, as of one node,
      however many there are and whatever they send. */
  lemma SharedIdShowsLocal(cfg: Config, w: World, steps: seq<Step>, now: real, local: Totals, xs: seq<Summary>)
    requires Start(w) && IsRun(cfg, w, steps) && AllCarry(cfg.local, steps)
    requires IsSelection(Outcome(cfg, w, steps).rows, cfg.owner, now, xs)
    ensures Outcome(cfg, w, steps).rows == map[]
    ensures Aggregated(local, xs) == Aggregate(local, local.earned - local.spent, 1)
  {
    NothingStored(cfg, w, steps);
    assert Fresh(Outcome(cfg, w, steps).rows, cfg.owner, now) == {};
    PlusNothing(local);
  }

  lemma PlusNothing(t: Totals)
    ensures Plus(t, NOTHING) == t
  {
  }
}
