/** The link table and the computation of domain authority from it. */
module LinkGraph {
  import opened Sums
  import opened Propagation

  const MAX_ITERATIONS: nat := 20
  const CONVERGENCE_THRESHOLD := 0.000001

  /** One row of the links table. */
  datatype Link = Link(source: string, target: string, sourceDomain: string, targetDomain: string)

  /** One row of the domain_authority table. */
  datatype AuthorityRow = AuthorityRow(score: real, inbound: nat, outbound: nat)

  function Domains(links: seq<Link>): set<string> {
    (set l | l in links :: l.sourceDomain) + (set l | l in links :: l.targetDomain)
  }

  /** `ds` lists the domains of the links table once each, in any order. */
  ghost predicate Lists(ds: seq<string>, links: seq<Link>) {
    Distinct(ds) && forall d :: d in ds <==> d in Domains(links)
  }

  function LinkCount(links: seq<Link>, s: string, t: string): nat {
    if links == [] then 0
    else
      var l := links[|links| - 1];
      LinkCount(links[..|links| - 1], s, t) + if l.sourceDomain == s && l.targetDomain == t then 1 else 0
  }

  /** A cross-domain link weighs 1, a link inside a domain a tenth of that. */
  function Weight(links: seq<Link>, s: string, t: string): real {
    if s == t then LinkCount(links, s, t) as real * 0.1 else LinkCount(links, s, t) as real
  }

  /** What the links leaving domain s weigh together, row by row. */
  function OutWeight(links: seq<Link>, s: string): real {
    if links == [] then 0.0
    else
      var l := links[|links| - 1];
      OutWeight(links[..|links| - 1], s)
      + if l.sourceDomain != s then 0.0 else if l.targetDomain == s then 0.1 else 1.0
  }

  ghost function WeightOf(links: seq<Link>): (string, string) -> real {
    (s, t) => Weight(links, s, t)
  }

  ghost function OutWeightOf(links: seq<Link>): string -> real {
    s => OutWeight(links, s)
  }

  ghost function Net(ds: seq<string>, links: seq<Link>): Network {
    WeightedNetwork(ds, WeightOf(links), OutWeightOf(links))
  }

  /** The other domains that link to d. */
  function Linking(links: seq<Link>, d: string): set<string> {
    set l | l in links && l.targetDomain == d && l.sourceDomain != d :: l.sourceDomain
  }

  /** The other domains that d links to. */
  function Linked(links: seq<Link>, d: string): set<string> {
    set l | l in links && l.sourceDomain == d && l.targetDomain != d :: l.targetDomain
  }

  function InboundCount(links: seq<Link>, d: string): nat {
    |Linking(links, d)|
  }

  function OutboundCount(links: seq<Link>, d: string): nat {
    |Linked(links, d)|
  }

  // ---- The link table defines a network ---------------------------------------------------------------------

  lemma {:induction false} CountedDomains(links: seq<Link>, s: string, t: string)
    ensures LinkCount(links, s, t) > 0 <==> exists l :: l in links && l.sourceDomain == s && l.targetDomain == t
  {
    if links != [] {
      var init, last := links[..|links| - 1], links[|links| - 1];
      assert links == init + [last];
      CountedDomains(init, s, t);
      assert forall l :: l in links <==> l in init || l == last;
    }
  }

  ghost function Spike(d: string, c: real): string -> real {
    t => if t == d then c else 0.0
  }

  lemma {:induction false} SumSpike(ds: seq<string>, d: string, c: real)
    requires Distinct(ds) && d in ds
    ensures Sum(ds, Spike(d, c)) == c
  {
    SumSupport(ds, [d], Spike(d, c));
    assert [d][..0] == [];
  }

  /** Grouping the rows by target domain and weighing the groups loses no weight. */
  lemma {:induction false} WeightsTotal(ds: seq<string>, links: seq<Link>, s: string)
    requires Distinct(ds)
    requires forall l | l in links :: l.targetDomain in ds
    ensures Sum(ds, Row(WeightOf(links), s)) == OutWeight(links, s)
  {
    if links == [] {
      SumConstant(ds, Row(WeightOf(links), s), 0.0);
    } else {
      var init, last := links[..|links| - 1], links[|links| - 1];
      WeightsTotal(ds, init, s);
      var t := last.targetDomain;
      assert last in links;
      var c := if last.sourceDomain != s then 0.0 else if t == s then 0.1 else 1.0;
      SumSpike(ds, t, c);
      SumAdd(ds, Row(WeightOf(links), s), Row(WeightOf(init), s), Spike(t, c));
    }
  }

  lemma {:induction false} OutWeightNonNegative(links: seq<Link>, s: string)
    ensures OutWeight(links, s) >= 0.0
  {
    if links != [] {
      OutWeightNonNegative(links[..|links| - 1], s);
    }
  }

  lemma NetIsNetwork(ds: seq<string>, links: seq<Link>)
    requires Lists(ds, links) && links != []
    ensures IsNetwork(Net(ds, links))
    ensures forall s :: Dangling(Net(ds, links), s) <==> OutWeight(links, s) == 0.0
  {
    assert links[0].sourceDomain in Domains(links);
    forall s ensures OutWeightOf(links)(s) >= 0.0 && Sum(ds, Row(WeightOf(links), s)) == OutWeightOf(links)(s) {
      WeightsTotal(ds, links, s);
      OutWeightNonNegative(links, s);
    }
    forall s, t ensures WeightOf(links)(s, t) >= 0.0 {
    }
    WeightedIsNetwork(ds, WeightOf(links), OutWeightOf(links));
  }

  // ---- Domain authority -------------------------------------------------------------------------------------

  /** What the convergence test sees after pass k + 1. */
  ghost function Moved(g: Network, k: nat): real {
    L1(g, Iterate(g, k + 1), Iterate(g, k))
  }

  ghost function MovedAt(g: Network): nat -> real {
    (k: nat) => Moved(g, k)
  }

  /** The loop makes k passes: the last one, and no earlier one, moved the scores by less than the
      threshold, or the passes are used up. */
  ghost predicate StopsAfter(moved: nat -> real, k: nat) {
    && 1 <= k <= MAX_ITERATIONS
    && (k == MAX_ITERATIONS || moved(k - 1) < CONVERGENCE_THRESHOLD)
    && MovingBefore(moved, k - 1)
  }

  ghost predicate MovingBefore(moved: nat -> real, k: nat) {
    k == 0 || (moved(k - 1) >= CONVERGENCE_THRESHOLD && MovingBefore(moved, k - 1))
  }

  lemma {:induction false} MovingAt(moved: nat -> real, k: nat, j: nat)
    requires MovingBefore(moved, k) && j < k
    ensures moved(j) >= CONVERGENCE_THRESHOLD
  {
    if j < k - 1 {
      MovingAt(moved, k - 1, j);
    }
  }

  lemma {:induction false} MovingAlike(moved: nat -> real, moved': nat -> real, k: nat)
    requires (forall j: nat :: moved(j) == moved'(j)) && MovingBefore(moved, k)
    ensures MovingBefore(moved', k)
  {
    if k != 0 {
      MovingAlike(moved, moved', k - 1);
      assert moved(k - 1) == moved'(k - 1);
    }
  }

  ghost predicate LoopStops(g: Network, k: nat) {
    StopsAfter(MovedAt(g), k)
  }

  ghost predicate IsMaximum(ds: seq<string>, x: Scores, m: real) {
    && (forall d | d in ds :: At(x, d) <= m)
    && (exists d :: d in ds && At(x, d) == m)
  }

  /** r is the scores after the loop's k passes, divided by the largest of them, m. */
  ghost predicate IsAuthority(g: Network, k: nat, m: real, r: Scores) {
    && LoopStops(g, k)
    && IsMaximum(g.domains, Iterate(g, k), m)
    && r == Scaled(g.domains, Iterate(g, k), m)
  }

  ghost function Scaled(ds: seq<string>, x: Scores, m: real): Scores {
    map d | d in ds :: Ratio(At(x, d), m)
  }

  // ---- Building the adjacency lists -------------------------------------------------------------------------

  type Edges = map<string, seq<(string, real)>>

  ghost function Targets(es: seq<(string, real)>): seq<string> {
    seq(|es|, i requires 0 <= i < |es| => es[i].0)
  }

  /** `es` lists the targets of s once each, with their weights. */
  ghost predicate IsAdjacency(links: seq<Link>, s: string, es: seq<(string, real)>) {
    && Distinct(Targets(es))
    && (forall i | 0 <= i < |es| :: LinkCount(links, s, es[i].0) > 0 && es[i].1 == Weight(links, s, es[i].0))
    && (forall t | LinkCount(links, s, t) > 0 :: t in Targets(es))
  }

  ghost predicate IsEdges(ds: seq<string>, links: seq<Link>, edges: Edges) {
    && (forall s | s in ds :: s in edges)
    && (forall s | s in ds :: IsAdjacency(links, s, edges[s]))
  }

  ghost function EdgeWeights(es: seq<(string, real)>): real {
    if es == [] then 0.0 else EdgeWeights(es[..|es| - 1]) + es[|es| - 1].1
  }

  lemma {:induction false} EdgeWeightsSum(es: seq<(string, real)>, f: string -> real)
    requires forall i | 0 <= i < |es| :: es[i].1 == f(es[i].0)
    ensures EdgeWeights(es) == Sum(Targets(es), f)
  {
    if es != [] {
      EdgeWeightsSum(es[..|es| - 1], f);
      assert Targets(es)[..|es| - 1] == Targets(es[..|es| - 1]);
    }
  }

  lemma AdjacencyTotal(ds: seq<string>, links: seq<Link>, s: string, es: seq<(string, real)>)
    requires Lists(ds, links) && IsAdjacency(links, s, es)
    ensures EdgeWeights(es) == OutWeight(links, s)
  {
    var f := Row(WeightOf(links), s);
    EdgeWeightsSum(es, f);
    forall i | 0 <= i < |Targets(es)| ensures Targets(es)[i] in ds {
      CountedDomains(links, s, es[i].0);
    }
    SumSupport(ds, Targets(es), f);
    WeightsTotal(ds, links, s);
  }

  /** The part of a score that goes along an edge of weight w. */
  function Payout(score: real, total: real): real -> real {
    w => score * Ratio(w, total)
  }

  /** What the first j entries of an adjacency list deliver to t. */
  ghost function Delivered(es: seq<(string, real)>, j: nat, pay: real -> real, t: string): real
    requires j <= |es|
  {
    if j == 0 then 0.0
    else Delivered(es, j - 1, pay, t) + if es[j - 1].0 == t then pay(es[j - 1].1) else 0.0
  }

  lemma {:induction false} DeliveredOnce(es: seq<(string, real)>, j: nat, pay: real -> real, t: string, i: int)
    requires j <= |es|
    requires -1 <= i < |es| && (forall k | 0 <= k < |es| :: es[k].0 == t <==> k == i)
    ensures Delivered(es, j, pay, t) == if 0 <= i < j then pay(es[i].1) else 0.0
  {
    if j != 0 {
      DeliveredOnce(es, j - 1, pay, t, i);
    }
  }

  /** An adjacency list pays every domain for its weight, once. */
  lemma DeliveredWeight(links: seq<Link>, s: string, es: seq<(string, real)>, pay: real -> real, t: string)
    requires IsAdjacency(links, s, es) && pay(0.0) == 0.0
    ensures Delivered(es, |es|, pay, t) == pay(Weight(links, s, t))
  {
    if i :| 0 <= i < |es| && es[i].0 == t {
      forall k | 0 <= k < |es| && es[k].0 == t ensures k == i {
        assert Targets(es)[k] == Targets(es)[i];
      }
      DeliveredOnce(es, |es|, pay, t, i);
    } else {
      DeliveredOnce(es, |es|, pay, t, -1);
      assert t !in Targets(es);
      assert Weight(links, s, t) == 0.0;
    }
  }

  // ---- The passes -------------------------------------------------------------------------------------------

  method TotalWeight(es: seq<(string, real)>) returns (total: real)
    ensures total == EdgeWeights(es)
  {
    total := 0.0;
    for i := 0 to |es|
      invariant total == EdgeWeights(es[..i])
    {
      total := total + es[i].1;
      assert es[..i + 1][..i] == es[..i];
    }
    assert es[..|es|] == es;
  }

  /** Adds one domain's contributions to the new scores. */
  method Deliver(es: seq<(string, real)>, score: real, total: real, before: Scores) returns (after: Scores)
    requires total != 0.0
    requires forall i | 0 <= i < |es| :: es[i].0 in before
    ensures after.Keys == before.Keys
    ensures forall t | t in before :: after[t] == before[t] + Damp(Delivered(es, |es|, Payout(score, total), t))
  {
    after := before;
    for j := 0 to |es|
      invariant after.Keys == before.Keys
      invariant forall t | t in before :: after[t] == before[t] + Damp(Delivered(es, j, Payout(score, total), t))
    {
      var (t, w) := es[j];
      after := after[t := after[t] + Damp(Payout(score, total)(w))];
    }
  }

  lemma EdgesInside(ds: seq<string>, links: seq<Link>, s: string, es: seq<(string, real)>)
    requires Lists(ds, links) && IsAdjacency(links, s, es)
    ensures forall i | 0 <= i < |es| :: es[i].0 in ds
  {
    forall i | 0 <= i < |es| ensures es[i].0 in ds {
      CountedDomains(links, s, es[i].0);
    }
  }

  /** The new scores after the first i domains have passed on their scores x. */
  ghost predicate PassedOn(g: Network, x: Scores, i: nat, partial: Scores)
    requires i <= |g.domains|
  {
    && partial.Keys == (set d | d in g.domains)
    && forall t | t in partial :: partial[t] == Base(|g.domains|) + Damp(Sum(g.domains[..i], Spread(g, Of(x), t)))
  }

  lemma PassedOnNext(g: Network, x: Scores, i: nat, before: Scores, after: Scores)
    requires i < |g.domains| && PassedOn(g, x, i, before)
    requires after.Keys == before.Keys
    requires forall t | t in before :: after[t] == before[t] + Damp(Spread(g, Of(x), t)(g.domains[i]))
    ensures PassedOn(g, x, i + 1, after)
  {
    forall t | t in after
      ensures after[t] == Base(|g.domains|) + Damp(Sum(g.domains[..i + 1], Spread(g, Of(x), t)))
    {
      PassedOnAt(g.domains, i, Spread(g, Of(x), t), Base(|g.domains|), before[t], after[t]);
    }
  }

  lemma PassedOnAt(ds: seq<string>, i: nat, f: string -> real, base: real, before: real, after: real)
    requires i < |ds|
    requires before == base + Damp(Sum(ds[..i], f)) && after == before + Damp(f(ds[i]))
    ensures after == base + Damp(Sum(ds[..i + 1], f))
  {
    SumPrefix(ds, i, f);
  }

  lemma PassedOnAll(g: Network, x: Scores, after: Scores)
    requires PassedOn(g, x, |g.domains|, after)
    ensures after == Step(g, x)
  {
    assert g.domains[..|g.domains|] == g.domains;
  }

  lemma WeightedShare(ds: seq<string>, weight: (string, string) -> real, out: string -> real, x: Scores, s: string,
                      t: string)
    ensures Spread(WeightedNetwork(ds, weight, out), Of(x), t)(s) == Payout(At(x, s), out(s))(weight(s, t))
  {
  }

  lemma ShareIsPayout(ds: seq<string>, links: seq<Link>, x: Scores, s: string, t: string)
    ensures Spread(Net(ds, links), Of(x), t)(s) == Payout(At(x, s), OutWeight(links, s))(Weight(links, s, t))
  {
    WeightedShare(ds, WeightOf(links), OutWeightOf(links), x, s, t);
  }

  lemma PayoutOfNothing(score: real, total: real)
    ensures Payout(score, total)(0.0) == 0.0
  {
  }

  lemma NoPayout(score: real)
    ensures forall w :: Payout(score, 0.0)(w) == 0.0
  {
  }

  /** One domain passes its score on along its adjacency list; with no outgoing weight nothing happens. */
  method PassOn(ghost ds: seq<string>, ghost links: seq<Link>, ghost src: string, es: seq<(string, real)>,
                score: real, before: Scores) returns (after: Scores)
    requires Lists(ds, links) && IsAdjacency(links, src, es)
    requires before.Keys == (set d | d in ds)
    ensures after.Keys == before.Keys
    ensures forall t | t in before ::
              after[t] == before[t] + Damp(Payout(score, OutWeight(links, src))(Weight(links, src, t)))
  {
    var total := TotalWeight(es);
    AdjacencyTotal(ds, links, src, es);
    if total == 0.0 {
      after := before;
      NoPayout(score);
    } else {
      EdgesInside(ds, links, src, es);
      after := Deliver(es, score, total, before);
      PayoutOfNothing(score, total);
      forall t ensures Delivered(es, |es|, Payout(score, total), t) == Payout(score, total)(Weight(links, src, t)) {
        DeliveredWeight(links, src, es, Payout(score, total), t);
      }
    }
  }

  /** One pass of the propagation loop over the adjacency lists. */
  method Propagate(ds: seq<string>, ghost links: seq<Link>, edges: Edges, scores: Scores) returns (newScores: Scores)
    requires Lists(ds, links) && IsEdges(ds, links, edges)
    requires forall d | d in ds :: d in scores
    ensures newScores == Step(Net(ds, links), scores)
  {
    ghost var g := Net(ds, links);
    newScores := map d | d in ds :: Base(|ds|);
    assert PassedOn(g, scores, 0, newScores);
    for i := 0 to |ds|
      invariant PassedOn(g, scores, i, newScores)
    {
      ghost var before := newScores;
      newScores := PassOn(ds, links, ds[i], edges[ds[i]], scores[ds[i]], newScores);
      forall t | t in before ensures newScores[t] == before[t] + Damp(Spread(g, Of(scores), t)(ds[i])) {
        ShareIsPayout(ds, links, scores, ds[i], t);
      }
      PassedOnNext(g, scores, i, before, newScores);
    }
    PassedOnAll(g, scores, newScores);
  }

  method Difference(ds: seq<string>, ghost g: Network, x: Scores, y: Scores) returns (diff: real)
    requires g.domains == ds
    requires forall d | d in ds :: d in x && d in y
    ensures diff == L1(g, x, y)
  {
    diff := 0.0;
    for i := 0 to |ds|
      invariant diff == Sum(ds[..i], Gap(x, y))
    {
      diff := diff + Abs(x[ds[i]] - y[ds[i]]);
      SumPrefix(ds, i, Gap(x, y));
    }
    assert ds[..|ds|] == ds;
  }

  method Maximum(ds: seq<string>, x: Scores) returns (m: real)
    requires ds != [] && forall d | d in ds :: d in x
    ensures IsMaximum(ds, x, m)
  {
    m := x[ds[0]];
    ghost var best := ds[0];
    for i := 0 to |ds|
      invariant best in ds && At(x, best) == m
      invariant forall j | 0 <= j < i :: At(x, ds[j]) <= m
    {
      if x[ds[i]] > m {
        m := x[ds[i]];
        best := ds[i];
      }
    }
  }

  lemma IterateNext(g: Network, k: nat)
    ensures Iterate(g, k + 1) == Step(g, Iterate(g, k))
    ensures Iterate(g, k).Keys == (set d | d in g.domains)
  {
  }

  /** The scores after k passes, as values: the loop needs to know no more about them than how one follows from the
      one before. */
  ghost predicate IsPass(g: Network, xs: nat -> Scores, moved: nat -> real, k: nat) {
    && xs(k).Keys == (set d | d in g.domains)
    && xs(k + 1) == Step(g, xs(k))
    && moved(k) == L1(g, xs(k + 1), xs(k))
  }

  /** The scores after each pass and the changes made by each pass. */
  ghost predicate ArePasses(g: Network, xs: nat -> Scores, moved: nat -> real) {
    forall k: nat :: IsPass(g, xs, moved, k)
  }

  lemma LoopRange(g: Network, k: nat)
    requires LoopStops(g, k)
    ensures 1 <= k <= MAX_ITERATIONS
  {
  }

  lemma LastPassBelow(moved: nat -> real, k: nat)
    requires StopsAfter(moved, k) && k < MAX_ITERATIONS
    ensures moved(k - 1) < CONVERGENCE_THRESHOLD
  {
  }

  /** What the end of the loop before the passes are used up says about the last one. */
  lemma LoopPassed(g: Network, k: nat)
    requires LoopStops(g, k) && k < MAX_ITERATIONS
    ensures Moved(g, k - 1) < CONVERGENCE_THRESHOLD
  {
    var moved := MovedAt(g);
    LastPassBelow(moved, k);
    assert moved(k - 1) == Moved(g, k - 1);
  }

  lemma EarlierPassAbove(moved: nat -> real, k: nat, j: nat)
    requires StopsAfter(moved, k) && j < k - 1
    ensures moved(j) >= CONVERGENCE_THRESHOLD
  {
    MovingAt(moved, k - 1, j);
  }

  /** What it says about earlier passes. */
  lemma LoopWentOn(g: Network, k: nat, j: nat)
    requires LoopStops(g, k) && j < k - 1
    ensures Moved(g, j) >= CONVERGENCE_THRESHOLD
  {
    var moved := MovedAt(g);
    EarlierPassAbove(moved, k, j);
    assert moved(j) == Moved(g, j);
  }

  lemma MovingNext(moved: nat -> real, k: nat)
    requires MovingBefore(moved, k) && moved(k) >= CONVERGENCE_THRESHOLD
    ensures MovingBefore(moved, k + 1)
  {
  }

  /** One pass, and what the convergence test compares. */
  method OnePass(ds: seq<string>, ghost links: seq<Link>, edges: Edges, scores: Scores, ghost xs: nat -> Scores,
                 ghost moved: nat -> real, ghost k: nat)
    returns (newScores: Scores, diff: real)
    requires Lists(ds, links) && IsEdges(ds, links, edges) && scores == xs(k)
    requires ArePasses(Net(ds, links), xs, moved)
    ensures newScores == xs(k + 1) && diff == moved(k)
  {
    assert IsPass(Net(ds, links), xs, moved, k) && IsPass(Net(ds, links), xs, moved, k + 1);
    newScores := Propagate(ds, links, edges, scores);
    diff := Difference(ds, Net(ds, links), newScores, scores);
  }

  /** Repeats the pass until the scores hardly move any more, at most MAX_ITERATIONS times. */
  method RepeatPasses(ds: seq<string>, ghost links: seq<Link>, edges: Edges, start: Scores, ghost xs: nat -> Scores,
                      ghost moved: nat -> real)
    returns (scores: Scores, ghost passes: nat)
    requires Lists(ds, links) && IsEdges(ds, links, edges) && start == xs(0)
    requires ArePasses(Net(ds, links), xs, moved)
    ensures StopsAfter(moved, passes) && scores == xs(passes)
  {
    scores := start;
    var iteration := 0;
    while iteration < MAX_ITERATIONS
      invariant 0 <= iteration <= MAX_ITERATIONS
      invariant scores == xs(iteration) && MovingBefore(moved, iteration)
    {
      var diff;
      scores, diff := OnePass(ds, links, edges, scores, xs, moved, iteration);
      iteration := iteration + 1;
      if diff < CONVERGENCE_THRESHOLD {
        break;
      }
      MovingNext(moved, iteration - 1);
    }
    passes := iteration;
  }

  ghost function Iterates(g: Network): nat -> Scores {
    (k: nat) => Iterate(g, k)
  }

  lemma IteratesArePasses(g: Network)
    ensures ArePasses(g, Iterates(g), MovedAt(g))
  {
    forall k: nat ensures IsPass(g, Iterates(g), MovedAt(g), k) {
      IterateNext(g, k);
    }
  }

  lemma IteratesKeys(g: Network, k: nat)
    ensures Iterates(g)(k) == Iterate(g, k) && Iterate(g, k).Keys == (set d | d in g.domains)
  {
    IterateNext(g, k);
  }

  lemma StartScores(g: Network, start: Scores)
    requires start == map d | d in g.domains :: 1.0 / |g.domains| as real
    requires g.domains != []
    ensures start == Iterates(g)(0)
  {
  }

  /** The loop, from equal scores. */
  method PropagateUntilStable(ds: seq<string>, ghost links: seq<Link>, edges: Edges)
    returns (scores: Scores, ghost passes: nat)
    requires Lists(ds, links) && ds != [] && IsEdges(ds, links, edges)
    ensures LoopStops(Net(ds, links), passes)
    ensures scores == Iterate(Net(ds, links), passes) && scores.Keys == (set d | d in ds)
  {
    ghost var g := Net(ds, links);
    var start: Scores := map d | d in ds :: 1.0 / |ds| as real;
    StartScores(g, start);
    IteratesArePasses(g);
    scores, passes := RepeatPasses(ds, links, edges, start, Iterates(g), MovedAt(g));
    IteratesKeys(g, passes);
  }

  // ---- Reading the tables -----------------------------------------------------------------------------------

  /** The SQL query for all domains; the order of its rows is not specified. */
  method DistinctDomains(links: seq<Link>) returns (ds: seq<string>)
    ensures Lists(ds, links)
  {
    ds := [];
    for i := 0 to |links|
      invariant Lists(ds, links[..i])
    {
      assert links[..i + 1] == links[..i] + [links[i]];
      if links[i].sourceDomain !in ds {
        ds := ds + [links[i].sourceDomain];
      }
      if links[i].targetDomain !in ds {
        ds := ds + [links[i].targetDomain];
      }
      DomainsOfNext(links, i);
    }
    assert links[..|links|] == links;
  }

  lemma DomainsOfNext(links: seq<Link>, i: nat)
    requires i < |links|
    ensures forall d :: d in Domains(links[..i + 1])
                   <==> d in Domains(links[..i]) || d == links[i].sourceDomain || d == links[i].targetDomain
  {
    assert links[..i + 1] == links[..i] + [links[i]];
    forall d ensures d in Domains(links[..i + 1])
                <==> d in Domains(links[..i]) || d == links[i].sourceDomain || d == links[i].targetDomain
    {
      assert links[i] in links[..i + 1];
      assert forall l :: l in links[..i + 1] <==> l in links[..i] || l == links[i];
    }
  }

  /** `rows` holds every linked pair of domains once: the groups of the GROUP BY query. */
  ghost predicate IsGrouping(rows: seq<(string, string)>, links: seq<Link>) {
    && Distinct(rows)
    && forall s, t :: (s, t) in rows <==> LinkCount(links, s, t) > 0
  }

  method GroupedPairs(links: seq<Link>) returns (rows: seq<(string, string)>)
    ensures IsGrouping(rows, links)
  {
    rows := [];
    for i := 0 to |links|
      invariant IsGrouping(rows, links[..i])
    {
      var pair := (links[i].sourceDomain, links[i].targetDomain);
      assert links[..i + 1][..i] == links[..i];
      if pair !in rows {
        rows := rows + [pair];
      }
    }
    assert links[..|links|] == links;
  }

  /** The adjacency lists as far as the first i groups fill them. */
  ghost predicate FilledBy(ds: seq<string>, links: seq<Link>, rows: seq<(string, string)>, i: nat, edges: Edges)
    requires i <= |rows|
  {
    && edges.Keys == (set d | d in ds)
    && (forall s | s in edges :: Distinct(Targets(edges[s])))
    && (forall s | s in edges :: forall k | 0 <= k < |edges[s]| :: edges[s][k].1 == Weight(links, s, edges[s][k].0))
    && (forall s, t | s in edges :: t in Targets(edges[s]) <==> (s, t) in rows[..i])
  }

  lemma FilledByNext(ds: seq<string>, links: seq<Link>, rows: seq<(string, string)>, i: nat, before: Edges,
                     after: Edges)
    requires i < |rows| && Distinct(rows) && FilledBy(ds, links, rows, i, before)
    requires rows[i].0 in before
    requires after == before[rows[i].0 := before[rows[i].0] + [(rows[i].1, Weight(links, rows[i].0, rows[i].1))]]
    ensures FilledBy(ds, links, rows, i + 1, after)
  {
    var (s, t) := rows[i];
    assert rows[..i + 1] == rows[..i] + [rows[i]];
    assert Targets(after[s]) == Targets(before[s]) + [t];
    assert rows[i] !in rows[..i];
  }

  lemma FilledByAll(ds: seq<string>, links: seq<Link>, rows: seq<(string, string)>, edges: Edges)
    requires IsGrouping(rows, links) && FilledBy(ds, links, rows, |rows|, edges)
    ensures IsEdges(ds, links, edges)
  {
    assert rows[..|rows|] == rows;
    forall s | s in ds ensures IsAdjacency(links, s, edges[s]) {
      forall k | 0 <= k < |edges[s]| ensures LinkCount(links, s, edges[s][k].0) > 0 {
        assert Targets(edges[s])[k] in Targets(edges[s]);
      }
    }
  }

  lemma LinkedDomains(ds: seq<string>, links: seq<Link>, s: string, t: string)
    requires Lists(ds, links) && LinkCount(links, s, t) > 0
    ensures s in ds && t in ds
  {
    CountedDomains(links, s, t);
  }

  /** Appends the edge of one group to its source domain's list. */
  method AddEdge(ghost ds: seq<string>, links: seq<Link>, rows: seq<(string, string)>, i: nat, edges: Edges)
    returns (filled: Edges)
    requires i < |rows| && Distinct(rows) && FilledBy(ds, links, rows, i, edges)
    requires rows[i].0 in edges
    ensures FilledBy(ds, links, rows, i + 1, filled)
  {
    var (s, t) := rows[i];
    var weight := LinkCount(links, s, t) as real;
    if s == t {
      weight := weight * 0.1;
    }
    filled := edges[s := edges[s] + [(t, weight)]];
    FilledByNext(ds, links, rows, i, edges, filled);
  }

  /** Turns the groups into adjacency lists: (target, weight) under each source domain. */
  method BuildEdges(ds: seq<string>, links: seq<Link>) returns (edges: Edges)
    requires Lists(ds, links)
    ensures IsEdges(ds, links, edges)
  {
    var rows := GroupedPairs(links);
    edges := map d | d in ds :: [];
    for i := 0 to |rows|
      invariant FilledBy(ds, links, rows, i, edges)
    {
      assert (rows[i].0, rows[i].1) in rows;
      LinkedDomains(ds, links, rows[i].0, rows[i].1);
      edges := AddEdge(ds, links, rows, i, edges);
    }
    FilledByAll(ds, links, rows, edges);
  }

  // ---- The link graph object --------------------------------------------------------------------------------

  ghost predicate UniqueRows(links: seq<Link>) {
    forall i, j :: 0 <= i < j < |links| ==> !(links[i].source == links[j].source && links[i].target == links[j].target)
  }

  predicate HasRow(links: seq<Link>, source: string, target: string) {
    exists i | 0 <= i < |links| :: links[i].source == source && links[i].target == target
  }

  /** INSERT OR IGNORE under the unique key (source_url, target_url). */
  function InsertOrIgnore(links: seq<Link>, l: Link): seq<Link> {
    if HasRow(links, l.source, l.target) then links else links + [l]
  }

  function LinkFor(domainOf: string -> string, source: string, target: string): Link {
    Link(source, target, domainOf(source), domainOf(target))
  }

  /** The links table after recording the targets of one page. */
  function Recorded(links: seq<Link>, domainOf: string -> string, source: string, targets: seq<string>): seq<Link> {
    if targets == [] then links
    else
      var init := Recorded(links, domainOf, source, targets[..|targets| - 1]);
      var target := targets[|targets| - 1];
      if domainOf(target) == "" then init else InsertOrIgnore(init, LinkFor(domainOf, source, target))
  }

  function Usable(domainOf: string -> string, targets: seq<string>): nat {
    if targets == [] then 0
    else Usable(domainOf, targets[..|targets| - 1]) + if domainOf(targets[|targets| - 1]) == "" then 0 else 1
  }

  /** r is the authority of the links table whatever order the database lists the domains in. */
  ghost predicate IsAuthorityOf(links: seq<Link>, k: nat, m: real, r: Scores) {
    forall ds | Lists(ds, links) :: IsAuthority(Net(ds, links), k, m, r)
  }

  method ScoreDomains(links: seq<Link>) returns (normalized: Scores, ghost k: nat, ghost m: real)
    requires links != []
    ensures normalized.Keys == Domains(links)
    ensures IsAuthorityOf(links, k, m, normalized)
  {
    var ds := DistinctDomains(links);
    NetIsNetwork(ds, links);
    var edges := BuildEdges(ds, links);
    var scores;
    scores, k := PropagateUntilStable(ds, links, edges);
    normalized, m := Normalize(ds, Net(ds, links), k, scores);
    IndependentOfOrder(ds, links, k, m, normalized);
  }

  /** The table holds one row per page and target, each made from its two URLs, with a target domain. */
  ghost predicate ValidLinks(links: seq<Link>, domainOf: string -> string) {
    && UniqueRows(links)
    && forall l | l in links :: l == LinkFor(domainOf, l.source, l.target) && l.targetDomain != ""
  }

  lemma DomainsGrow(links: seq<Link>, l: Link)
    ensures Domains(links) <= Domains(InsertOrIgnore(links, l))
  {
    assert forall k | k in links :: k in InsertOrIgnore(links, l);
  }

  lemma InsertKeepsValid(links: seq<Link>, domainOf: string -> string, source: string, target: string)
    requires ValidLinks(links, domainOf) && domainOf(target) != ""
    ensures ValidLinks(InsertOrIgnore(links, LinkFor(domainOf, source, target)), domainOf)
  {
  }

  lemma RecordedNext(links: seq<Link>, domainOf: string -> string, source: string, targets: seq<string>, i: nat)
    requires i < |targets|
    ensures Recorded(links, domainOf, source, targets[..i + 1])
         == var init := Recorded(links, domainOf, source, targets[..i]);
            if domainOf(targets[i]) == "" then init
            else InsertOrIgnore(init, LinkFor(domainOf, source, targets[i]))
    ensures Usable(domainOf, targets[..i + 1])
         == Usable(domainOf, targets[..i]) + if domainOf(targets[i]) == "" then 0 else 1
  {
    assert targets[..i + 1][..i] == targets[..i];
  }

  /** Rounding to an integer, halves to the even neighbour. */
  function RoundHalfEven(x: real): int {
    var low := x.Floor;
    var rest := x - low as real;
    if rest < 0.5 then low else if rest > 0.5 then low + 1 else if low % 2 == 0 then low else low + 1
  }

  /** round(x, 6). */
  function Round6(x: real): real {
    RoundHalfEven(x * 1000000.0) as real / 1000000.0
  }

  class LinkGraph {
    const domainOf: string -> string
    var links: seq<Link>
    var authority: map<string, AuthorityRow>

    ghost predicate Valid()
      reads this
    {
      && ValidLinks(links, domainOf)
      && authority.Keys <= Domains(links)
    }

    constructor (domainOf: string -> string)
      ensures Valid() && links == [] && authority == map[] && this.domainOf == domainOf
    {
      this.domainOf := domainOf;
      links, authority := [], map[];
    }

    method AddLinks(source: string, targets: seq<string>) returns (inserted: nat)
      requires Valid()
      modifies this
      ensures Valid() && authority == old(authority)
      ensures links == Recorded(old(links), domainOf, source, targets)
      ensures inserted == Usable(domainOf, targets)
    {
      inserted := 0;
      for i := 0 to |targets|
        invariant Valid() && authority == old(authority)
        invariant links == Recorded(old(links), domainOf, source, targets[..i])
        invariant inserted == Usable(domainOf, targets[..i])
      {
        RecordedNext(old(links), domainOf, source, targets, i);
        if domainOf(targets[i]) != "" {
          InsertKeepsValid(links, domainOf, source, targets[i]);
          DomainsGrow(links, LinkFor(domainOf, source, targets[i]));
          links := InsertOrIgnore(links, LinkFor(domainOf, source, targets[i]));
          inserted := inserted + 1;
        }
      }
      assert targets[..|targets|] == targets;
    }

    /** Scores every domain of the links table and stores the scores. */
    method ComputeDomainAuthority() returns (normalized: Scores)
      requires Valid()
      modifies this`authority
      ensures Valid()
      ensures normalized.Keys == Domains(links)
      ensures links != [] ==> exists k, m :: IsAuthorityOf(links, k, m, normalized)
      ensures authority == old(authority) + StoredRows(links, normalized)
    {
      if links == [] {
        return map[];
      }
      ghost var k, m;
      normalized, k, m := ScoreDomains(links);
      authority := authority + StoredRows(links, normalized);
    }

    /** The stored score of a domain given in lower case. */
    method DomainAuthority(domain: string) returns (score: real)
      ensures score == if domain in authority then authority[domain].score else 0.0
    {
      score := if domain in authority then authority[domain].score else 0.0;
    }
  }

  function StoredRows(links: seq<Link>, normalized: Scores): map<string, AuthorityRow> {
    map d | d in normalized :: AuthorityRow(Round6(normalized[d]), InboundCount(links, d), OutboundCount(links, d))
  }

  /** Divides by the largest score; the loop's scores are positive, so the guard always passes. */
  method Normalize(ds: seq<string>, ghost g: Network, ghost k: nat, scores: Scores)
    returns (normalized: Scores, ghost max: real)
    requires IsNetwork(g) && g.domains == ds && LoopStops(g, k)
    requires scores == Iterate(g, k) && scores.Keys == (set d | d in ds)
    ensures normalized.Keys == (set d | d in ds)
    ensures IsAuthority(g, k, max, normalized)
  {
    var m := Maximum(ds, scores);
    max := m;
    MaximumPositive(g, k, m);
    if m > 0.0 {
      normalized := DivideAll(ds, scores, m);
    } else {
      normalized := scores;
    }
  }

  method DivideAll(ds: seq<string>, x: Scores, m: real) returns (r: Scores)
    requires m > 0.0 && forall d | d in ds :: d in x
    ensures r == Scaled(ds, x, m)
  {
    r := map d | d in ds :: x[d] / m;
  }

  lemma MaximumPositive(g: Network, k: nat, m: real)
    requires IsNetwork(g) && IsMaximum(g.domains, Iterate(g, k), m)
    ensures m > 0.0
  {
    ScoreFloor(g, k);
  }

  lemma MaximumUnique(ds: seq<string>, es: seq<string>, x: Scores, m: real, n: real)
    requires IsMaximum(ds, x, m) && IsMaximum(es, x, n)
    requires forall d :: d in ds <==> d in es
    ensures m == n
  {
  }

  lemma MovedOrder(g: Network, h: Network, k: nat)
    requires Reordered(g, h)
    ensures Moved(g, k) == Moved(h, k)
  {
    IterateOrder(g, h, k + 1);
    IterateOrder(g, h, k);
    L1Order(g, h, Iterate(g, k + 1), Iterate(g, k));
  }

  lemma StopsAlike(moved: nat -> real, moved': nat -> real, k: nat)
    requires (forall j: nat :: moved(j) == moved'(j)) && StopsAfter(moved, k)
    ensures StopsAfter(moved', k)
  {
    MovingAlike(moved, moved', k - 1);
    assert moved(k - 1) == moved'(k - 1);
  }

  lemma LoopStopsOrder(g: Network, h: Network, k: nat)
    requires Reordered(g, h) && LoopStops(g, k)
    ensures LoopStops(h, k)
  {
    forall j: nat ensures MovedAt(g)(j) == MovedAt(h)(j) {
      MovedOrder(g, h, j);
    }
    StopsAlike(MovedAt(g), MovedAt(h), k);
  }

  lemma AuthorityOrder(g: Network, h: Network, k: nat, m: real, r: Scores)
    requires Reordered(g, h) && IsAuthority(g, k, m, r)
    ensures IsAuthority(h, k, m, r)
  {
    LoopStopsOrder(g, h, k);
    IterateOrder(g, h, k);
    SameDomains(g.domains, h.domains);
    MaximumOrder(g.domains, h.domains, Iterate(g, k), m);
  }

  lemma MaximumOrder(ds: seq<string>, es: seq<string>, x: Scores, m: real)
    requires IsMaximum(ds, x, m)
    requires forall d :: d in ds <==> d in es
    ensures IsMaximum(es, x, m) && Scaled(ds, x, m) == Scaled(es, x, m)
  {
  }

  lemma IndependentOfOrder(ds: seq<string>, links: seq<Link>, k: nat, m: real, r: Scores)
    requires Lists(ds, links) && IsAuthority(Net(ds, links), k, m, r)
    ensures IsAuthorityOf(links, k, m, r)
  {
    forall es | Lists(es, links) ensures IsAuthority(Net(es, links), k, m, r) {
      DistinctPermutation(ds, es);
      AuthorityOrder(Net(ds, links), Net(es, links), k, m, r);
    }
  }
}
