/** What compute_domain_authority and add_links guarantee about their results. */
module Authority {
  import opened Sums
  import opened Propagation
  import opened LinkGraph

  // ---- Scores -----------------------------------------------------------------------------------------------

  /** Multiplying by a positive number keeps the order both ways. */
  lemma ProductOrder(x: real, y: real, m: real)
    requires m > 0.0
    ensures x < y ==> x * m < y * m
    ensures x == y ==> x * m == y * m
    ensures x > y ==> x * m > y * m
    ensures 1.0 * m == m && 0.0 * m == 0.0
  {
    if x < y {
      ProductPositive(y - x, m);
      assert (y - x) * m == y * m - x * m;
    } else if x > y {
      ProductPositive(x - y, m);
      assert (x - y) * m == x * m - y * m;
    }
  }

  lemma RatioTimes(a: real, m: real)
    requires m > 0.0
    ensures Ratio(a, m) * m == a
  {
  }

  lemma RatioOrder(a: real, b: real, m: real)
    requires m > 0.0
    ensures Ratio(a, m) <= Ratio(b, m) <==> a <= b
  {
    RatioTimes(a, m);
    RatioTimes(b, m);
    ProductOrder(Ratio(a, m), Ratio(b, m), m);
  }

  lemma RatioPositive(a: real, m: real)
    requires m > 0.0 && a > 0.0
    ensures Ratio(a, m) > 0.0
  {
    RatioTimes(a, m);
    ProductOrder(0.0, Ratio(a, m), m);
  }

  lemma RatioToOne(a: real, m: real)
    requires m > 0.0
    ensures Ratio(a, m) == 1.0 <==> a == m
    ensures Ratio(a, m) <= 1.0 <==> a <= m
  {
    RatioTimes(a, m);
    ProductOrder(Ratio(a, m), 1.0, m);
  }

  lemma ScaledAt(ds: seq<string>, x: Scores, m: real, d: string)
    requires d in ds
    ensures At(Scaled(ds, x, m), d) == Ratio(At(x, d), m)
  {
  }

  /** Every score lies in (0, 1], some domain scores exactly 1, and the scores rank the domains as the
      propagated scores do. */
  lemma AuthorityRange(ds: seq<string>, links: seq<Link>, k: nat, m: real, r: Scores)
    requires links != [] && Lists(ds, links) && IsAuthorityOf(links, k, m, r)
    ensures forall d | d in ds :: 0.0 < At(r, d) <= 1.0
    ensures exists d :: d in ds && At(r, d) == 1.0
    ensures forall c, d | c in ds && d in ds ::
              At(r, c) <= At(r, d) <==> At(Iterate(Net(ds, links), k), c) <= At(Iterate(Net(ds, links), k), d)
  {
    var g := Net(ds, links);
    NetIsNetwork(ds, links);
    assert IsAuthority(g, k, m, r);
    MaximumPositive(g, k, m);
    ScoreFloor(g, k);
    ScaledRange(ds, Iterate(g, k), m, r);
  }

  lemma ScaledRange(ds: seq<string>, x: Scores, m: real, r: Scores)
    requires m > 0.0 && IsMaximum(ds, x, m) && r == Scaled(ds, x, m)
    requires forall d | d in ds :: At(x, d) > 0.0
    ensures forall d | d in ds :: 0.0 < At(r, d) <= 1.0
    ensures exists d :: d in ds && At(r, d) == 1.0
    ensures forall c, d | c in ds && d in ds :: At(r, c) <= At(r, d) <==> At(x, c) <= At(x, d)
  {
    forall c, d | c in ds && d in ds
      ensures At(r, c) <= At(r, d) <==> At(x, c) <= At(x, d)
      ensures 0.0 < At(r, d) <= 1.0
      ensures At(r, d) == 1.0 <==> At(x, d) == m
    {
      ScaledAt(ds, x, m, c);
      ScaledAt(ds, x, m, d);
      RatioOrder(At(x, c), At(x, d), m);
      RatioPositive(At(x, d), m);
      RatioToOne(At(x, d), m);
    }
    var top :| top in ds && At(x, top) == m;
    assert At(r, top) == 1.0;
  }

  /** The nearest integer, and the even one of two. */
  lemma RoundHalfEvenNear(x: real)
    ensures -0.5 <= RoundHalfEven(x) as real - x <= 0.5
    ensures RoundHalfEven(x) as real - x in {-0.5, 0.5} ==> RoundHalfEven(x) % 2 == 0
  {
  }

  lemma RoundHalfEvenOrder(x: real, y: real)
    requires x <= y
    ensures RoundHalfEven(x) <= RoundHalfEven(y)
  {
    RoundHalfEvenNear(x);
    RoundHalfEvenNear(y);
    assert x.Floor <= y.Floor;
  }

  lemma Round6Facts(x: real, y: real)
    requires x <= y
    ensures Round6(x) <= Round6(y)
    ensures -0.0000005 <= Round6(x) - x <= 0.0000005
  {
    RoundHalfEvenOrder(x * 1000000.0, y * 1000000.0);
    RoundHalfEvenNear(x * 1000000.0);
  }

  /** The scores in the table lie in [0, 1], are within half a millionth of the scores returned, and rank no domain
      above one that scores higher. */
  lemma StoredScores(links: seq<Link>, r: Scores, c: string, d: string)
    requires c in r && d in r && 0.0 < r[c] <= r[d] <= 1.0
    ensures var rows := StoredRows(links, r);
            && c in rows && d in rows
            && 0.0 <= rows[c].score <= rows[d].score <= 1.0
            && Abs(rows[c].score - r[c]) <= 0.0000005
  {
    assert Round6(0.0) == 0.0 && Round6(1.0) == 1.0;
    Round6Facts(0.0, r[c]);
    Round6Facts(r[c], r[d]);
    Round6Facts(r[d], 1.0);
  }

  /** The first link from one domain to another raises the one's outbound and the other's inbound count, and no other
      link changes any stored count; without links all are 0. */
  lemma StoredCounts(links: seq<Link>, l: Link, r: Scores, d: string)
    requires d in r
    ensures StoredRows([], r)[d].inbound == 0 && StoredRows([], r)[d].outbound == 0
    ensures var before, after := StoredRows(links, r)[d], StoredRows(links + [l], r)[d];
            var first := l.sourceDomain != l.targetDomain && LinkCount(links, l.sourceDomain, l.targetDomain) == 0;
            && after.inbound == before.inbound + (if first && d == l.targetDomain then 1 else 0)
            && after.outbound == before.outbound + (if first && d == l.sourceDomain then 1 else 0)
  {
    StoredInbound(links, l, d);
    StoredOutbound(links, l, d);
  }

  lemma LinkingCounted(links: seq<Link>, s: string, d: string)
    ensures s in Linking(links, d) <==> s != d && LinkCount(links, s, d) > 0
    ensures s in Linked(links, d) <==> s != d && LinkCount(links, d, s) > 0
  {
    CountedDomains(links, s, d);
    CountedDomains(links, d, s);
  }

  lemma StoredInbound(links: seq<Link>, l: Link, d: string)
    ensures InboundCount(links + [l], d) == InboundCount(links, d)
            + if l.targetDomain == d && l.sourceDomain != d && LinkCount(links, l.sourceDomain, d) == 0 then 1 else 0
  {
    forall s ensures s in Linking(links + [l], d)
      <==> s in Linking(links, d) || (s == l.sourceDomain && s != d && l.targetDomain == d)
    {
      LinkingCounted(links, s, d);
      LinkingCounted(links + [l], s, d);
      LinkCountNext(links, l, s, d);
    }
    LinkingCounted(links, l.sourceDomain, d);
    assert Linking(links + [l], d) == Linking(links, d)
           + if l.targetDomain == d && l.sourceDomain != d then {l.sourceDomain} else {};
  }

  lemma StoredOutbound(links: seq<Link>, l: Link, d: string)
    ensures OutboundCount(links + [l], d) == OutboundCount(links, d)
            + if l.sourceDomain == d && l.targetDomain != d && LinkCount(links, d, l.targetDomain) == 0 then 1 else 0
  {
    forall s ensures s in Linked(links + [l], d)
      <==> s in Linked(links, d) || (s == l.targetDomain && s != d && l.sourceDomain == d)
    {
      LinkingCounted(links, s, d);
      LinkingCounted(links + [l], s, d);
      LinkCountNext(links, l, d, s);
    }
    LinkingCounted(links, l.targetDomain, d);
    assert Linked(links + [l], d) == Linked(links, d)
           + if l.sourceDomain == d && l.targetDomain != d then {l.targetDomain} else {};
  }

  lemma LoopStopsOnce(g: Network, j: nat, k: nat)
    requires LoopStops(g, j) && LoopStops(g, k)
    ensures j == k
  {
    StopsOnce(MovedAt(g), j, k);
  }

  lemma StopsOnce(moved: nat -> real, j: nat, k: nat)
    requires StopsAfter(moved, j) && StopsAfter(moved, k)
    ensures j == k
  {
    if j < k {
      MovingAt(moved, k - 1, j - 1);
    } else if k < j {
      MovingAt(moved, j - 1, k - 1);
    }
  }

  /** The result is a function of the links table: recomputing it stores the same scores. */
  lemma AuthorityUnique(ds: seq<string>, links: seq<Link>, j: nat, m: real, r: Scores, k: nat, n: real, q: Scores)
    requires Lists(ds, links) && IsAuthorityOf(links, j, m, r) && IsAuthorityOf(links, k, n, q)
    ensures r == q
  {
    var g := Net(ds, links);
    assert IsAuthority(g, j, m, r) && IsAuthority(g, k, n, q);
    LoopStopsOnce(g, j, k);
    MaximumUnique(ds, ds, Iterate(g, k), m, n);
  }

  lemma {:induction false} MovingIff(moved: nat -> real, k: nat)
    ensures MovingBefore(moved, k) <==> forall j: nat | j < k :: moved(j) >= 0.000001
  {
    if k != 0 {
      MovingIff(moved, k - 1);
    }
  }

  /** The loop ends with the first pass that moves the scores by less than a millionth in all, and with the twentieth at
      the latest. */
  lemma LoopStopsIff(g: Network, k: nat)
    ensures LoopStops(g, k)
       <==> 1 <= k <= 20 && (forall j: nat | j < k - 1 :: Moved(g, j) >= 0.000001)
            && (k == 20 || Moved(g, k - 1) < 0.000001)
  {
    hide Moved;
    if k > 0 {
      MovingIff(MovedAt(g), k - 1);
    }
    assert forall j: nat :: MovedAt(g)(j) == Moved(g, j);
  }

  lemma PassError(g: Network, k: nat, p: Scores)
    requires IsNetwork(g) && FixedPoint(g, p)
    ensures 0.15 * L1(g, Iterate(g, k + 1), p) <= Damp(Moved(g, k))
  {
    IterateNext(g, k);
    DistanceToFixedPoint(g, Iterate(g, k), p);
  }

  lemma BelowThreshold(distance: real, moved: real)
    requires 0.15 * distance <= Damp(moved) && moved < CONVERGENCE_THRESHOLD
    ensures 0.15 * distance < Damp(CONVERGENCE_THRESHOLD)
  {
  }

  lemma ErrorCases(g: Network, k: nat, p: Scores)
    requires LoopStops(g, k)
    requires k < MAX_ITERATIONS ==> 0.15 * L1(g, Iterate(g, k), p) <= Damp(Moved(g, k - 1))
    requires k == MAX_ITERATIONS ==> L1(g, Iterate(g, k), p) <= DampK(MAX_ITERATIONS, L1(g, Uniform(g), p))
    ensures 0.15 * L1(g, Iterate(g, k), p) < Damp(CONVERGENCE_THRESHOLD)
         || L1(g, Iterate(g, k), p) <= DampK(MAX_ITERATIONS, L1(g, Uniform(g), p))
  {
    if k < MAX_ITERATIONS {
      LoopPassed(g, k);
      BelowThreshold(L1(g, Iterate(g, k), p), Moved(g, k - 1));
    }
  }

  /** How far the loop's scores can be from a fixed point p: tiny when the convergence test passed,
      and otherwise at most the start's distance damped twenty times. */
  lemma LoopError(g: Network, k: nat, p: Scores)
    requires IsNetwork(g) && LoopStops(g, k) && FixedPoint(g, p)
    ensures 0.15 * L1(g, Iterate(g, k), p) < Damp(CONVERGENCE_THRESHOLD)
         || L1(g, Iterate(g, k), p) <= DampK(MAX_ITERATIONS, L1(g, Uniform(g), p))
  {
    hide *;
    LoopRange(g, k);
    PassError(g, k - 1, p);
    IterateDistance(g, MAX_ITERATIONS, p);
    ErrorCases(g, k, p);
  }

  /** When the convergence test passed, the scores any longer run would reach are hardly different. */
  lemma LoopTail(g: Network, k: nat, more: nat)
    requires IsNetwork(g) && LoopStops(g, k) && k < MAX_ITERATIONS
    ensures 0.15 * L1(g, Iterate(g, k + more), Iterate(g, k)) < Damp(CONVERGENCE_THRESHOLD)
  {
    LoopPassed(g, k);
    TailBound(g, k, more);
    BelowThreshold(L1(g, Iterate(g, k + more), Iterate(g, k)), Moved(g, k - 1));
  }

  // ---- Mass -------------------------------------------------------------------------------------------------

  lemma {:induction false} OutWeightZero(links: seq<Link>, s: string)
    ensures OutWeight(links, s) == 0.0 <==> forall l | l in links :: l.sourceDomain != s
  {
    if links != [] {
      var init, last := links[..|links| - 1], links[|links| - 1];
      OutWeightZero(init, s);
      OutWeightNonNegative(init, s);
      assert forall l :: l in links <==> l in init || l == last;
    }
  }

  /** The propagated scores add up to at most 1, and to exactly 1 when and only when every domain
      has an outgoing link. */
  lemma AuthorityMass(ds: seq<string>, links: seq<Link>, k: nat)
    requires links != [] && Lists(ds, links) && k > 0
    ensures Total(Net(ds, links), Iterate(Net(ds, links), k)) <= 1.0
    ensures Total(Net(ds, links), Iterate(Net(ds, links), k)) == 1.0
       <==> forall d | d in ds :: exists l :: l in links && l.sourceDomain == d
  {
    NetIsNetwork(ds, links);
    Mass(Net(ds, links), k);
    forall d ensures OutWeight(links, d) == 0.0 <==> !exists l :: l in links && l.sourceDomain == d {
      OutWeightZero(links, d);
    }
  }

  // ---- Recording links --------------------------------------------------------------------------------------

  /** No usable target is recorded already for this page, and none occurs twice in the list. */
  predicate AllNew(links: seq<Link>, domainOf: string -> string, source: string, targets: seq<string>) {
    forall i | 0 <= i < |targets| && domainOf(targets[i]) != "" ::
      !HasRow(links, source, targets[i]) && targets[i] !in targets[..i]
  }

  lemma {:induction false} RecordedRow(
    links: seq<Link>, domainOf: string -> string, source: string, targets: seq<string>, s: string, t: string
  )
    ensures HasRow(Recorded(links, domainOf, source, targets), s, t)
       <==> HasRow(links, s, t) || (s == source && domainOf(t) != "" && t in targets)
  {
    if targets != [] {
      var n := |targets| - 1;
      RecordedRow(links, domainOf, source, targets[..n], s, t);
      assert targets == targets[..n] + [targets[n]];
      var init := Recorded(links, domainOf, source, targets[..n]);
      if domainOf(targets[n]) != "" && !HasRow(init, source, targets[n]) {
        var l := LinkFor(domainOf, source, targets[n]);
        assert (init + [l])[|init|] == l;
        assert forall i | 0 <= i < |init| :: (init + [l])[i] == init[i];
        RecordedNew(init, l, s, t);
      } else if domainOf(targets[n]) != "" {
        RecordedRow(links, domainOf, source, targets[..n], source, targets[n]);
      }
    }
  }

  lemma RecordedNew(links: seq<Link>, l: Link, s: string, t: string)
    ensures HasRow(links + [l], s, t) <==> HasRow(links, s, t) || (s == l.source && t == l.target)
  {
    assert (links + [l])[|links|] == l;
    assert forall i | 0 <= i < |links| :: (links + [l])[i] == links[i];
  }

  /** The rows of the table after a page's targets are recorded: those before, and one for each target that has a
      domain and was not recorded for this page, with the two URLs and the domain of each. */
  lemma {:induction false} RowsRecorded(
    links: seq<Link>, domainOf: string -> string, source: string, targets: seq<string>, l: Link
  )
    ensures l in Recorded(links, domainOf, source, targets)
       <==> || l in links
            || (l.source == source && l.target in targets && l.targetDomain != ""
                && l.sourceDomain == domainOf(source) && l.targetDomain == domainOf(l.target)
                && forall k | k in links :: !(k.source == source && k.target == l.target))
  {
    if targets != [] {
      var n := |targets| - 1;
      RowsRecorded(links, domainOf, source, targets[..n], l);
      RecordedRow(links, domainOf, source, targets[..n], source, targets[n]);
      assert targets == targets[..n] + [targets[n]];
    }
  }

  /** The targets of a page in domain d that the table does not hold for the page yet. */
  ghost function NewTargets(
    links: seq<Link>, domainOf: string -> string, source: string, targets: seq<string>, d: string
  ): set<string> {
    set t | t in targets && domainOf(t) == d && forall k | k in links :: !(k.source == source && k.target == t)
  }

  lemma NewTargetsNext(
    links: seq<Link>, domainOf: string -> string, source: string, init: seq<string>, t: string, d: string
  )
    ensures var before, after := NewTargets(links, domainOf, source, init, d),
                                 NewTargets(links, domainOf, source, init + [t], d);
            |after| == |before| + if domainOf(t) == d && !HasRow(links, source, t) && t !in init then 1 else 0
  {
    var before, after := NewTargets(links, domainOf, source, init, d),
                         NewTargets(links, domainOf, source, init + [t], d);
    assert forall u :: u in init + [t] <==> u in init || u == t;
    if domainOf(t) == d && !HasRow(links, source, t) && t !in init {
      assert after == before + {t};
    } else {
      assert after == before;
    }
  }

  lemma LinkCountNext(links: seq<Link>, l: Link, s: string, d: string)
    ensures LinkCount(links + [l], s, d)
         == LinkCount(links, s, d) + if l.sourceDomain == s && l.targetDomain == d then 1 else 0
  {
    assert (links + [l])[..|links|] == links;
  }

  /** On the graph of domains: the page's domain gains one link to domain d for every new target there, and no other
      count changes. */
  lemma {:induction false} LinksGained(
    links: seq<Link>, domainOf: string -> string, source: string, targets: seq<string>, s: string, d: string
  )
    ensures LinkCount(Recorded(links, domainOf, source, targets), s, d)
         == LinkCount(links, s, d)
            + if s == domainOf(source) && d != "" then |NewTargets(links, domainOf, source, targets, d)| else 0
  {
    if targets == [] {
      assert NewTargets(links, domainOf, source, [], d) == {};
    } else {
      var init, t := targets[..|targets| - 1], targets[|targets| - 1];
      assert targets == init + [t];
      LinksGained(links, domainOf, source, init, s, d);
      RecordedRow(links, domainOf, source, init, source, t);
      NewTargetsNext(links, domainOf, source, init, t, d);
      LinkCountNext(Recorded(links, domainOf, source, init), LinkFor(domainOf, source, t), s, d);
    }
  }

  lemma AllNewStep(links: seq<Link>, domainOf: string -> string, source: string, init: seq<string>, t: string)
    ensures AllNew(links, domainOf, source, init + [t])
       <==> AllNew(links, domainOf, source, init) && (domainOf(t) == "" || (!HasRow(links, source, t) && t !in init))
  {
    var targets := init + [t];
    forall i | 0 <= i < |init| ensures targets[i] == init[i] && targets[..i] == init[..i] {
    }
    assert targets[|init|] == t && targets[..|init|] == init;
  }

  lemma RecordedSize(links: seq<Link>, domainOf: string -> string, source: string, init: seq<string>, t: string)
    ensures var before, after := Recorded(links, domainOf, source, init), Recorded(links, domainOf, source, init + [t]);
            |after| == |before| + if domainOf(t) != "" && !HasRow(before, source, t) then 1 else 0
    ensures Usable(domainOf, init + [t]) == Usable(domainOf, init) + if domainOf(t) != "" then 1 else 0
  {
    assert (init + [t])[..|init|] == init;
  }

  /** The number add_links returns counts every target with a domain; it is the number of rows added
      exactly when all those targets are new. */
  lemma {:induction false} InsertedCount(
    links: seq<Link>, domainOf: string -> string, source: string, targets: seq<string>
  )
    ensures |Recorded(links, domainOf, source, targets)| - |links| <= Usable(domainOf, targets)
    ensures |Recorded(links, domainOf, source, targets)| - |links| == Usable(domainOf, targets)
       <==> AllNew(links, domainOf, source, targets)
  {
    if targets != [] {
      var init, t := targets[..|targets| - 1], targets[|targets| - 1];
      assert targets == init + [t];
      InsertedCount(links, domainOf, source, init);
      RecordedRow(links, domainOf, source, init, source, t);
      RecordedSize(links, domainOf, source, init, t);
      AllNewStep(links, domainOf, source, init, t);
    }
  }

  /** Recording the same page again leaves the table as it is, yet returns the same count. */
  lemma {:induction false} RecordAgain(
    domainOf: string -> string, source: string, targets: seq<string>, known: seq<Link>
  )
    requires forall t | t in targets && domainOf(t) != "" :: HasRow(known, source, t)
    ensures Recorded(known, domainOf, source, targets) == known
  {
    if targets != [] {
      RecordAgain(domainOf, source, targets[..|targets| - 1], known);
    }
  }

  lemma RecordTwice(links: seq<Link>, domainOf: string -> string, source: string, targets: seq<string>)
    ensures var once := Recorded(links, domainOf, source, targets);
            Recorded(once, domainOf, source, targets) == once
  {
    var once := Recorded(links, domainOf, source, targets);
    forall t | t in targets && domainOf(t) != "" ensures HasRow(once, source, t) {
      RecordedRow(links, domainOf, source, targets, source, t);
    }
    RecordAgain(domainOf, source, targets, once);
  }
}
