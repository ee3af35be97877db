/** A small graph on which every pass moves the scores by exactly 0.85 of the pass before, so that the
    convergence test never passes: two domains that both link to a third, which links back to both. */
module AuthorityLimits {
  import opened Sums
  import opened Propagation
  import opened LinkGraph

  ghost predicate ThreeDomains(a: string, b: string, c: string) {
    a != b && b != c && a != c
  }

  function StarLinks(a: string, b: string, c: string): seq<Link> {
    [] + [Link(a, c, a, c)] + [Link(b, c, b, c)] + [Link(c, a, c, a)] + [Link(c, b, c, b)]
  }

  function StarDomains(a: string, b: string, c: string): seq<string> {
    [] + [a] + [b] + [c]
  }

  ghost predicate IsStar(g: Network, a: string, b: string, c: string) {
    && ThreeDomains(a, b, c)
    && g.domains == StarDomains(a, b, c)
    && forall s, t :: g.share(s, t) == if s in {a, b} && t == c then 1.0 else if s == c && t in {a, b} then 0.5 else 0.0
  }

  lemma CountAppend(links: seq<Link>, l: Link, s: string, t: string)
    ensures LinkCount(links + [l], s, t)
         == LinkCount(links, s, t) + if l.sourceDomain == s && l.targetDomain == t then 1 else 0
  {
    assert (links + [l])[..|links|] == links;
  }

  lemma OutWeightAppend(links: seq<Link>, l: Link, s: string)
    ensures OutWeight(links + [l], s)
         == OutWeight(links, s) + if l.sourceDomain != s then 0.0 else if l.targetDomain == s then 0.1 else 1.0
  {
    assert (links + [l])[..|links|] == links;
  }

  lemma SumAppend(xs: seq<string>, x: string, f: string -> real)
    ensures Sum(xs + [x], f) == Sum(xs, f) + f(x)
  {
    assert (xs + [x])[..|xs|] == xs;
  }

  lemma StarWeights(a: string, b: string, c: string, s: string, t: string)
    requires ThreeDomains(a, b, c)
    ensures LinkCount(StarLinks(a, b, c), s, t) == if (s in {a, b} && t == c) || (s == c && t in {a, b}) then 1 else 0
    ensures OutWeight(StarLinks(a, b, c), s) == if s == c then 2.0 else if s in {a, b} then 1.0 else 0.0
  {
    var l0, l1, l2, l3 := Link(a, c, a, c), Link(b, c, b, c), Link(c, a, c, a), Link(c, b, c, b);
    CountAppend([], l0, s, t);
    CountAppend([] + [l0], l1, s, t);
    CountAppend([] + [l0] + [l1], l2, s, t);
    CountAppend([] + [l0] + [l1] + [l2], l3, s, t);
    OutWeightAppend([], l0, s);
    OutWeightAppend([] + [l0], l1, s);
    OutWeightAppend([] + [l0] + [l1], l2, s);
    OutWeightAppend([] + [l0] + [l1] + [l2], l3, s);
  }

  lemma StarIsListed(a: string, b: string, c: string)
    requires ThreeDomains(a, b, c)
    ensures Lists(StarDomains(a, b, c), StarLinks(a, b, c)) && StarLinks(a, b, c) != []
  {
    var links := StarLinks(a, b, c);
    assert links[0] == Link(a, c, a, c) && links[1] == Link(b, c, b, c);
    assert links[2] == Link(c, a, c, a) && links[3] == Link(c, b, c, b);
    assert links[0] in links && links[1] in links;
    assert forall d :: d in Domains(links) <==> d in {a, b, c};
    StarMembers(a, b, c);
  }

  lemma StarShare(a: string, b: string, c: string, s: string, t: string)
    requires ThreeDomains(a, b, c)
    ensures Net(StarDomains(a, b, c), StarLinks(a, b, c)).share(s, t)
         == if s in {a, b} && t == c then 1.0 else if s == c && t in {a, b} then 0.5 else 0.0
  {
    StarWeights(a, b, c, s, t);
    NetShare(StarDomains(a, b, c), StarLinks(a, b, c), s, t);
  }

  /** The links table of the three domains gives this network. */
  lemma LinksMakeStar(a: string, b: string, c: string)
    requires ThreeDomains(a, b, c)
    ensures Lists(StarDomains(a, b, c), StarLinks(a, b, c)) && StarLinks(a, b, c) != []
    ensures IsStar(Net(StarDomains(a, b, c), StarLinks(a, b, c)), a, b, c)
  {
    StarIsListed(a, b, c);
    var g := Net(StarDomains(a, b, c), StarLinks(a, b, c));
    forall s, t
      ensures g.share(s, t) == if s in {a, b} && t == c then 1.0 else if s == c && t in {a, b} then 0.5 else 0.0
    {
      StarShare(a, b, c, s, t);
    }
  }

  lemma NetShare(ds: seq<string>, links: seq<Link>, s: string, t: string)
    ensures Net(ds, links).share(s, t) == Ratio(Weight(links, s, t), OutWeight(links, s))
  {
  }

  lemma Sum3(a: string, b: string, c: string, f: string -> real)
    ensures Sum(StarDomains(a, b, c), f) == f(a) + f(b) + f(c)
  {
    SumAppend([], a, f);
    SumAppend([] + [a], b, f);
    SumAppend([] + [a] + [b], c, f);
  }

  /** Scores that treat the two outer domains alike. */
  ghost function StarScores(a: string, b: string, c: string, u: real, v: real): Scores {
    map d | d in StarDomains(a, b, c) :: if d == c then v else u
  }

  lemma StarMembers(a: string, b: string, c: string)
    ensures forall d :: d in StarDomains(a, b, c) <==> d in {a, b, c}
  {
    assert StarDomains(a, b, c)[0] == a && StarDomains(a, b, c)[1] == b && StarDomains(a, b, c)[2] == c;
  }

  lemma StarReceived(g: Network, a: string, b: string, c: string, x: Scores, u: real, v: real, t: string)
    requires IsStar(g, a, b, c) && t in {a, b, c}
    requires At(x, a) == At(x, b) == u && At(x, c) == v
    ensures Received(g, Of(x), t) == if t == c then 2.0 * u else 0.5 * v
  {
    Sum3(a, b, c, Spread(g, Of(x), t));
    assert Spread(g, Of(x), t)(a) == u * g.share(a, t);
    assert Spread(g, Of(x), t)(b) == u * g.share(b, t);
    assert Spread(g, Of(x), t)(c) == v * g.share(c, t);
  }

  lemma StarStepAt(g: Network, a: string, b: string, c: string, x: Scores, u: real, v: real, t: string)
    requires IsStar(g, a, b, c) && t in {a, b, c}
    requires At(x, a) == At(x, b) == u && At(x, c) == v
    ensures StepAt(g, x, t) == if t == c then 0.05 + 1.7 * u else 0.05 + 0.425 * v
  {
    StarReceived(g, a, b, c, x, u, v, t);
    assert |StarDomains(a, b, c)| == 3;
  }

  lemma StarStep(g: Network, a: string, b: string, c: string, u: real, v: real)
    requires IsStar(g, a, b, c)
    ensures Step(g, StarScores(a, b, c, u, v)) == StarScores(a, b, c, 0.05 + 0.425 * v, 0.05 + 1.7 * u)
  {
    var x := StarScores(a, b, c, u, v);
    StarMembers(a, b, c);
    assert At(x, a) == At(x, b) == u && At(x, c) == v;
    forall t | t in g.domains ensures StepAt(g, x, t) == if t == c then 0.05 + 1.7 * u else 0.05 + 0.425 * v {
      StarStepAt(g, a, b, c, x, u, v, t);
    }
  }

  lemma StarUniform(g: Network, a: string, b: string, c: string)
    requires IsStar(g, a, b, c)
    ensures Iterate(g, 0) == StarScores(a, b, c, 1.0 / 3.0, 1.0 / 3.0)
  {
    assert |StarDomains(a, b, c)| == 3;
  }

  lemma StarNext(g: Network, a: string, b: string, c: string, k: nat, u: real, v: real)
    requires IsStar(g, a, b, c)
    requires Iterate(g, k) == StarScores(a, b, c, u, v)
    ensures Iterate(g, k + 1) == StarScores(a, b, c, 0.05 + 0.425 * v, 0.05 + 1.7 * u)
  {
    IterateNext(g, k);
    StarStep(g, a, b, c, u, v);
  }

  lemma StarGap(g: Network, a: string, b: string, c: string, u: real, v: real, u': real, v': real)
    requires IsStar(g, a, b, c)
    ensures L1(g, StarScores(a, b, c, u, v), StarScores(a, b, c, u', v')) == 2.0 * Abs(u - u') + Abs(v - v')
  {
    Sum3(a, b, c, Gap(StarScores(a, b, c, u, v), StarScores(a, b, c, u', v')));
  }

  predicate StarApart(u: real, v: real, u': real, v': real, d: real) {
    && u' == 0.05 + 0.425 * v
    && v' == 0.05 + 1.7 * u
    && 2.0 * Abs(u' - u) == Abs(v' - v) == d
  }

  lemma StarApartNext(u: real, v: real, u': real, v': real, d: real)
    requires StarApart(u, v, u', v', d)
    ensures StarApart(u', v', 0.05 + 0.425 * v', 0.05 + 1.7 * u', Damp(d))
  {
  }

  /** Two successive score assignments that treat the outer domains alike, and how far apart they are. */
  ghost predicate StarState(x: Scores, y: Scores, a: string, b: string, c: string, d: real) {
    exists u, v, u', v' ::
      x == StarScores(a, b, c, u, v) && y == StarScores(a, b, c, u', v') && StarApart(u, v, u', v', d)
  }

  lemma StarStart(g: Network, a: string, b: string, c: string)
    requires IsStar(g, a, b, c)
    ensures StarState(Iterate(g, 0), Iterate(g, 1), a, b, c, 0.85 / 3.0)
  {
    StarUniform(g, a, b, c);
    StarNext(g, a, b, c, 0, 1.0 / 3.0, 1.0 / 3.0);
    assert StarApart(1.0 / 3.0, 1.0 / 3.0, 0.05 + 0.425 * (1.0 / 3.0), 0.05 + 1.7 * (1.0 / 3.0), 0.85 / 3.0);
  }

  lemma StarGoesOn(g: Network, x: Scores, y: Scores, a: string, b: string, c: string, d: real)
    requires IsStar(g, a, b, c) && StarState(x, y, a, b, c, d)
    ensures StarState(y, Step(g, y), a, b, c, Damp(d))
  {
    var u, v, u', v' :|
      x == StarScores(a, b, c, u, v) && y == StarScores(a, b, c, u', v') && StarApart(u, v, u', v', d);
    StarApartNext(u, v, u', v', d);
    StarStep(g, a, b, c, u', v');
  }

  lemma {:induction false} StarPasses(g: Network, a: string, b: string, c: string, k: nat)
    requires IsStar(g, a, b, c)
    ensures StarState(Iterate(g, k), Iterate(g, k + 1), a, b, c, DampK(k, 0.85 / 3.0))
  {
    if k == 0 {
      StarStart(g, a, b, c);
    } else {
      StarPasses(g, a, b, c, k - 1);
      StarGoesOn(g, Iterate(g, k - 1), Iterate(g, k), a, b, c, DampK(k - 1, 0.85 / 3.0));
      IterateNext(g, k);
    }
  }

  /** The k-th further pass moves the scores by exactly 0.85^k of what the first pass did. */
  lemma StarMoved(g: Network, a: string, b: string, c: string, k: nat)
    requires IsStar(g, a, b, c)
    ensures Moved(g, k) == 2.0 * DampK(k, 0.85 / 3.0)
  {
    StarPasses(g, a, b, c, k);
    var u, v, u', v' :| Iterate(g, k) == StarScores(a, b, c, u, v) && Iterate(g, k + 1) == StarScores(a, b, c, u', v')
                     && StarApart(u, v, u', v', DampK(k, 0.85 / 3.0));
    StarGap(g, a, b, c, u', v', u, v);
  }

  lemma {:induction false} DampKPositive(k: nat, x: real)
    requires x > 0.0
    ensures DampK(k, x) > 0.0
  {
    if k != 0 {
      DampKPositive(k - 1, x);
    }
  }

  /** Four passes do not halve a positive difference. */
  lemma FourPasses(k: nat, x: real)
    requires x > 0.0
    ensures DampK(k + 4, x) > 0.5 * DampK(k, x)
  {
    DampKPositive(k, x);
    assert DampK(k + 1, x) == Damp(DampK(k, x));
    assert DampK(k + 2, x) == Damp(DampK(k + 1, x));
    assert DampK(k + 3, x) == Damp(DampK(k + 2, x));
  }

  lemma {:induction false} DampKDecreases(j: nat, k: nat, x: real)
    requires x > 0.0 && j <= k
    ensures DampK(k, x) <= DampK(j, x)
  {
    if j < k {
      DampKDecreases(j, k - 1, x);
      DampKPositive(k - 1, x);
    }
  }

  lemma TwentyPasses(k: nat)
    requires k <= 20
    ensures 2.0 * DampK(k, 0.85 / 3.0) > 0.01
  {
    var x := 0.85 / 3.0;
    FourPasses(0, x);
    FourPasses(4, x);
    FourPasses(8, x);
    FourPasses(12, x);
    FourPasses(16, x);
    DampKDecreases(k, 20, x);
  }

  lemma AlwaysMoving(g: Network, k: nat)
    requires LoopStops(g, k) && forall j | 0 <= j < 20 :: Moved(g, j) > 0.01
    ensures k == MAX_ITERATIONS && Moved(g, k - 1) > 0.01
  {
  }

  /** On this graph the loop ends because its passes are used up, never because the scores converged. */
  lemma ThresholdNotReached(g: Network, a: string, b: string, c: string, k: nat)
    requires IsStar(g, a, b, c) && LoopStops(g, k)
    ensures k == MAX_ITERATIONS
    ensures Moved(g, k - 1) > 0.01
  {
    forall j | 0 <= j < 20 ensures Moved(g, j) > 0.01 {
      TwentyPasses(j);
      StarMoved(g, a, b, c, j);
    }
    AlwaysMoving(g, k);
  }

  // ---- The geometric bound is the best one -------------------------------------------------------------------

  lemma {:induction false} DampKLinear(k: nat, c: real, x: real)
    ensures DampK(k, c * x) == c * DampK(k, x)
  {
    if k != 0 {
      DampKLinear(k - 1, c, x);
    }
  }

  lemma ExactlyDamped(k: nat, x: real, first: real, moved: real)
    requires first == 2.0 * DampK(0, x) && moved == 2.0 * DampK(k, x) && x > 0.0
    ensures moved == DampK(k, first) && first > 0.0
  {
    DampKLinear(k, 2.0, x);
  }

  /** On this graph each pass moves the scores by all that the bound on successive changes allows. */
  lemma StarAttains(g: Network, a: string, b: string, c: string, k: nat)
    requires IsStar(g, a, b, c)
    ensures Moved(g, k) == DampK(k, Moved(g, 0)) && Moved(g, 0) > 0.0
  {
    var first, moved := Moved(g, 0), Moved(g, k);
    StarMoved(g, a, b, c, k);
    StarMoved(g, a, b, c, 0);
    ExactlyDamped(k, 0.85 / 3.0, first, moved);
  }

  lemma SomeStar() returns (g: Network)
    ensures IsNetwork(g) && IsStar(g, "a", "b", "c")
  {
    LinksMakeStar("a", "b", "c");
    NetIsNetwork(StarDomains("a", "b", "c"), StarLinks("a", "b", "c"));
    g := Net(StarDomains("a", "b", "c"), StarLinks("a", "b", "c"));
  }

  /** The k-th number is at most so many times the first. */
  ghost predicate AtMostTimes(m: nat -> real, k: nat, factor: real) {
    m(k) <= factor * m(0)
  }

  ghost predicate BoundsChange(k: nat, factor: real) {
    forall g | IsNetwork(g) :: AtMostTimes(MovedAt(g), k, factor)
  }

  lemma FactorAtLeast(d: real, factor: real, first: real)
    requires first > 0.0 && first * d <= factor * first
    ensures d <= factor
  {
    if factor < d {
      ProductPositive(d - factor, first);
      assert false;
    }
  }

  lemma FactorAtMost(d: real, factor: real, first: real)
    requires first >= 0.0 && d <= factor
    ensures first * d <= factor * first
  {
    ProductNonNegative(factor - d, first);
    assert (factor - d) * first == factor * first - first * d;
  }

  lemma AttainedFactor(m: nat -> real, k: nat, factor: real)
    requires AtMostTimes(m, k, factor) && m(k) == DampK(k, m(0)) && m(0) > 0.0
    ensures DampK(k, 1.0) <= factor
  {
    DampKLinear(k, m(0), 1.0);
    FactorAtLeast(DampK(k, 1.0), factor, m(0));
  }

  lemma LargerFactor(m: nat -> real, k: nat, factor: real)
    requires DampK(k, 1.0) <= factor && m(k) <= DampK(k, m(0)) && m(0) >= 0.0
    ensures AtMostTimes(m, k, factor)
  {
    DampKLinear(k, m(0), 1.0);
    FactorAtMost(DampK(k, 1.0), factor, m(0));
  }

  lemma ChangeDamped(g: Network, k: nat)
    requires IsNetwork(g)
    ensures MovedAt(g)(k) <= DampK(k, MovedAt(g)(0)) && MovedAt(g)(0) >= 0.0
  {
    SuccessiveDifference(g, k);
    L1NonNegative(g, Iterate(g, 1), Iterate(g, 0));
  }

  /** A factor bounds the change of pass k by that of the first pass, on all networks, if and only if it is at least
      0.85^k. */
  lemma GeometricBoundIsBest(k: nat, factor: real)
    ensures BoundsChange(k, factor) <==> DampK(k, 1.0) <= factor
  {
    if DampK(k, 1.0) <= factor {
      forall g | IsNetwork(g) ensures AtMostTimes(MovedAt(g), k, factor) {
        ChangeDamped(g, k);
        LargerFactor(MovedAt(g), k, factor);
      }
    } else if BoundsChange(k, factor) {
      var g := SomeStar();
      StarAttains(g, "a", "b", "c", k);
      AttainedFactor(MovedAt(g), k, factor);
    }
  }
}
