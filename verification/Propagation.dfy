/** The damped score propagation as mathematics: one pass over a network of domains contracts
    distances by 0.85, which bounds how far the loop can be from its limit. */
module Propagation {
  import opened Sums

  /** `share(s, t)` is the part of s's score that one pass hands to t. */
  datatype Network = Network(domains: seq<string>, share: (string, string) -> real)

  type Scores = map<string, real>

  ghost function SharesFrom(g: Network, s: string): string -> real {
    t => g.share(s, t)
  }

  /** A domain without outgoing links: its score is not passed on to anyone. */
  ghost predicate Dangling(g: Network, s: string) {
    Sum(g.domains, SharesFrom(g, s)) == 0.0
  }

  /** Shares are never negative, and a domain passes on either all of its score or none of it. */
  ghost predicate IsNetwork(g: Network) {
    && Distinct(g.domains)
    && g.domains != []
    && (forall s, t :: g.share(s, t) >= 0.0)
    && (forall s :: Dangling(g, s) || Sum(g.domains, SharesFrom(g, s)) == 1.0)
  }

  // ---- Networks given by edge weights -----------------------------------------------------------------------

  function Ratio(a: real, w: real): real {
    if w == 0.0 then 0.0 else a / w
  }

  /** Each domain divides its score among its targets in proportion to the weights. */
  ghost function WeightedNetwork(ds: seq<string>, weight: (string, string) -> real, out: string -> real): Network {
    Network(ds, (s, t) => Ratio(weight(s, t), out(s)))
  }

  ghost function Row(weight: (string, string) -> real, s: string): string -> real {
    t => weight(s, t)
  }

  lemma RatioFacts(a: real, w: real)
    requires a >= 0.0 && w >= 0.0
    ensures Ratio(a, w) >= 0.0
    ensures w != 0.0 ==> a == w * Ratio(a, w)
  {
  }

  lemma Cancel(w: real, z: real)
    requires w != 0.0 && w == w * z
    ensures z == 1.0
  {
    assert z == (w * z) / w == 1.0;
  }

  lemma RatioTotal(ds: seq<string>, weights: string -> real, shares: string -> real, w: real)
    requires w >= 0.0 && Sum(ds, weights) == w
    requires forall t :: weights(t) >= 0.0 && shares(t) == Ratio(weights(t), w)
    ensures Sum(ds, shares) == if w == 0.0 then 0.0 else 1.0
  {
    if w == 0.0 {
      SumConstant(ds, shares, 0.0);
    } else {
      forall t ensures weights(t) == w * shares(t) {
        RatioFacts(weights(t), w);
      }
      SumScale(ds, weights, w, shares);
      Cancel(w, Sum(ds, shares));
    }
  }

  lemma WeightedIsNetwork(ds: seq<string>, weight: (string, string) -> real, out: string -> real)
    requires Distinct(ds) && ds != []
    requires forall s, t :: weight(s, t) >= 0.0
    requires forall s :: out(s) >= 0.0 && Sum(ds, Row(weight, s)) == out(s)
    ensures IsNetwork(WeightedNetwork(ds, weight, out))
    ensures forall s :: Dangling(WeightedNetwork(ds, weight, out), s) <==> out(s) == 0.0
  {
    var g := WeightedNetwork(ds, weight, out);
    forall s ensures Sum(ds, SharesFrom(g, s)) == if out(s) == 0.0 then 0.0 else 1.0 {
      RatioTotal(ds, Row(weight, s), SharesFrom(g, s), out(s));
    }
    forall s, t ensures g.share(s, t) >= 0.0 {
      RatioFacts(weight(s, t), out(s));
    }
  }

  /** The damping factor. */
  function Damp(x: real): real {
    0.85 * x
  }

  function Base(n: nat): real {
    if n == 0 then 0.0 else (1.0 - 0.85) / n as real
  }

  function At(x: Scores, d: string): real {
    if d in x then x[d] else 0.0
  }

  function Of(x: Scores): string -> real {
    d => At(x, d)
  }

  ghost function Spread(g: Network, a: string -> real, t: string): string -> real {
    s => a(s) * g.share(s, t)
  }

  /** What t receives when every domain s hands on a(s) along its shares. */
  ghost function Received(g: Network, a: string -> real, t: string): real {
    Sum(g.domains, Spread(g, a, t))
  }

  ghost function StepAt(g: Network, x: Scores, t: string): real {
    Base(|g.domains|) + Damp(Received(g, Of(x), t))
  }

  /** One pass of the propagation loop. */
  ghost function Step(g: Network, x: Scores): Scores {
    map d | d in g.domains :: StepAt(g, x, d)
  }

  ghost function Uniform(g: Network): Scores {
    map d | d in g.domains :: 1.0 / |g.domains| as real
  }

  ghost function Repeat<T>(f: T -> T, x: T, k: nat): T {
    if k == 0 then x else f(Repeat(f, x, k - 1))
  }

  ghost function Pass(g: Network): Scores -> Scores {
    x => Step(g, x)
  }

  /** k further passes from the scores x. */
  ghost function Run(g: Network, x: Scores, k: nat): Scores {
    Repeat(Pass(g), x, k)
  }

  /** The scores after k passes of the loop, which starts from equal scores. */
  ghost function Iterate(g: Network, k: nat): Scores {
    Run(g, Uniform(g), k)
  }

  ghost function Gap(x: Scores, y: Scores): string -> real {
    d => Abs(At(x, d) - At(y, d))
  }

  /** The distance of the convergence test: the sum of absolute differences. */
  ghost function L1(g: Network, x: Scores, y: Scores): real {
    Sum(g.domains, Gap(x, y))
  }

  ghost function Total(g: Network, x: Scores): real {
    Sum(g.domains, Of(x))
  }

  ghost function Zero(): string -> real {
    d => 0.0
  }

  ghost function Arrives(g: Network, a: string -> real): string -> real {
    t => Received(g, a, t)
  }

  ghost function Damped(f: string -> real): string -> real {
    d => Damp(f(d))
  }

  lemma {:induction false} SumDamped(ds: seq<string>, f: string -> real)
    ensures Sum(ds, Damped(f)) == Damp(Sum(ds, f))
  {
    if ds != [] {
      SumDamped(ds[..|ds| - 1], f);
    }
  }

  // ---- What one pass hands on in all ------------------------------------------------------------------------

  ghost function Sent(g: Network, a: string -> real): string -> string -> real {
    s => t => a(s) * g.share(s, t)
  }

  ghost function Kept(g: Network, a: string -> real): string -> real {
    s => if Dangling(g, s) then 0.0 else a(s)
  }

  lemma SentTotal(g: Network, a: string -> real, s: string)
    requires IsNetwork(g)
    ensures Sum(g.domains, Sent(g, a)(s)) == Kept(g, a)(s)
  {
    SumScale(g.domains, Sent(g, a)(s), a(s), SharesFrom(g, s));
  }

  /** What arrives over all targets is what the non-dangling domains sent. */
  lemma ReceivedTotal(g: Network, a: string -> real)
    requires IsNetwork(g)
    ensures Sum(g.domains, Arrives(g, a)) == Sum(g.domains, Kept(g, a))
  {
    forall s ensures Kept(g, a)(s) == Sum(g.domains, Sent(g, a)(s)) {
      SentTotal(g, a, s);
    }
    SumSwap(g.domains, g.domains, Sent(g, a), t => Spread(g, a, t), Kept(g, a), Arrives(g, a));
  }

  // ---- Contraction ------------------------------------------------------------------------------------------

  lemma L1NonNegative(g: Network, x: Scores, y: Scores)
    ensures L1(g, x, y) >= 0.0
  {
    SumConstant(g.domains, Zero(), 0.0);
    SumMonotone(g.domains, Zero(), Gap(x, y));
  }

  lemma L1Symmetric(g: Network, x: Scores, y: Scores)
    ensures L1(g, x, y) == L1(g, y, x)
  {
    SumCongruent(g.domains, Gap(x, y), Gap(y, x));
  }

  lemma GapTriangle(x: Scores, y: Scores, z: Scores, d: string)
    ensures Gap(x, z)(d) <= Gap(x, y)(d) + Gap(y, z)(d)
  {
    assert Gap(x, z)(d) == Abs(At(x, d) - At(z, d));
    assert Gap(x, y)(d) == Abs(At(x, d) - At(y, d));
    assert Gap(y, z)(d) == Abs(At(y, d) - At(z, d));
  }

  ghost function GapSum(x: Scores, y: Scores, z: Scores): string -> real {
    d => Gap(x, y)(d) + Gap(y, z)(d)
  }

  lemma L1Triangle(g: Network, x: Scores, y: Scores, z: Scores)
    ensures L1(g, x, z) <= L1(g, x, y) + L1(g, y, z)
  {
    forall d ensures Gap(x, z)(d) <= GapSum(x, y, z)(d) {
      GapTriangle(x, y, z, d);
    }
    SumMonotone(g.domains, Gap(x, z), GapSum(x, y, z));
    SumAdd(g.domains, GapSum(x, y, z), Gap(x, y), Gap(y, z));
  }

  lemma MulAbs(a: real, h: real)
    requires h >= 0.0
    ensures Abs(a * h) == Abs(a) * h
  {
    if a < 0.0 {
      assert -a * h >= 0.0;
    }
  }

  ghost function Change(x: Scores, y: Scores): string -> real {
    d => At(x, d) - At(y, d)
  }

  lemma ProductDifference(x: real, y: real, share: real)
    ensures x * share == (x - y) * share + y * share
  {
  }

  lemma SpreadChange(g: Network, x: Scores, y: Scores, t: string, s: string)
    ensures Spread(g, Of(x), t)(s) == Spread(g, Change(x, y), t)(s) + Spread(g, Of(y), t)(s)
  {
    ProductDifference(At(x, s), At(y, s), g.share(s, t));
  }

  lemma ReceivedChange(g: Network, x: Scores, y: Scores, t: string)
    ensures Received(g, Change(x, y), t) == Received(g, Of(x), t) - Received(g, Of(y), t)
  {
    forall s ensures Spread(g, Of(x), t)(s) == Spread(g, Change(x, y), t)(s) + Spread(g, Of(y), t)(s) {
      SpreadChange(g, x, y, t, s);
    }
    SumAdd(g.domains, Spread(g, Of(x), t), Spread(g, Change(x, y), t), Spread(g, Of(y), t));
  }

  lemma SpreadBound(g: Network, x: Scores, y: Scores, t: string, s: string)
    requires g.share(s, t) >= 0.0
    ensures Abs(Spread(g, Change(x, y), t)(s)) <= Spread(g, Gap(x, y), t)(s)
  {
    MulAbs(At(x, s) - At(y, s), g.share(s, t));
  }

  lemma ReceivedGap(g: Network, x: Scores, y: Scores, t: string)
    requires IsNetwork(g)
    ensures Abs(Received(g, Of(x), t) - Received(g, Of(y), t)) <= Received(g, Gap(x, y), t)
  {
    forall s ensures Abs(Spread(g, Change(x, y), t)(s)) <= Spread(g, Gap(x, y), t)(s) {
      SpreadBound(g, x, y, t, s);
    }
    SumTriangle(g.domains, Spread(g, Change(x, y), t), Spread(g, Gap(x, y), t));
    ReceivedChange(g, x, y, t);
  }

  lemma AbsDamp(b: real, p: real, q: real)
    ensures Abs((b + Damp(p)) - (b + Damp(q))) == Damp(Abs(p - q))
  {
  }

  lemma StepGap(g: Network, x: Scores, y: Scores, t: string)
    requires IsNetwork(g) && t in g.domains
    ensures Gap(Step(g, x), Step(g, y))(t) <= Damp(Received(g, Gap(x, y), t))
  {
    ReceivedGap(g, x, y, t);
    AbsDamp(Base(|g.domains|), Received(g, Of(x), t), Received(g, Of(y), t));
    assert At(Step(g, x), t) == StepAt(g, x, t);
    assert At(Step(g, y), t) == StepAt(g, y, t);
  }

  lemma BoundedByArrivals(g: Network, f: string -> real, a: string -> real)
    requires IsNetwork(g)
    requires forall d | d in g.domains :: a(d) >= 0.0
    requires forall t | t in g.domains :: f(t) <= Damped(Arrives(g, a))(t)
    ensures Sum(g.domains, f) <= Damp(Sum(g.domains, a))
  {
    SumMonotone(g.domains, f, Damped(Arrives(g, a)));
    SumDamped(g.domains, Arrives(g, a));
    ReceivedTotal(g, a);
    SumMonotone(g.domains, Kept(g, a), a);
  }

  lemma StepGapDamped(g: Network, x: Scores, y: Scores, t: string)
    requires IsNetwork(g) && t in g.domains
    ensures Gap(Step(g, x), Step(g, y))(t) <= Damped(Arrives(g, Gap(x, y)))(t)
  {
    StepGap(g, x, y, t);
    assert Damped(Arrives(g, Gap(x, y)))(t) == Damp(Received(g, Gap(x, y), t));
  }

  lemma GapNonNegative(x: Scores, y: Scores)
    ensures forall d :: Gap(x, y)(d) >= 0.0
  {
  }

  /** One propagation pass brings any two score assignments closer by the damping factor. */
  lemma Contraction(g: Network, x: Scores, y: Scores)
    requires IsNetwork(g)
    ensures L1(g, Step(g, x), Step(g, y)) <= Damp(L1(g, x, y))
  {
    hide Step, Gap, Arrives, Damped, Damp, IsNetwork;
    forall t | t in g.domains ensures Gap(Step(g, x), Step(g, y))(t) <= Damped(Arrives(g, Gap(x, y)))(t) {
      StepGapDamped(g, x, y, t);
    }
    GapNonNegative(x, y);
    BoundedByArrivals(g, Gap(Step(g, x), Step(g, y)), Gap(x, y));
  }

  /** Damp applied k times. */
  function DampK(k: nat, x: real): real {
    if k == 0 then x else Damp(DampK(k - 1, x))
  }

  lemma {:induction false} RunsApproach(g: Network, x: Scores, y: Scores, k: nat)
    requires IsNetwork(g)
    ensures L1(g, Run(g, x, k), Run(g, y, k)) <= DampK(k, L1(g, x, y))
  {
    if k != 0 {
      RunsApproach(g, x, y, k - 1);
      Contraction(g, Run(g, x, k - 1), Run(g, y, k - 1));
    }
  }

  lemma {:induction false} RepeatAppend<T>(f: T -> T, x: T, j: nat, k: nat)
    ensures Repeat(f, Repeat(f, x, j), k) == Repeat(f, x, j + k)
  {
    if k != 0 {
      RepeatAppend(f, x, j, k - 1);
    }
  }

  lemma {:induction false} RepeatFixed<T>(f: T -> T, x: T, k: nat)
    requires f(x) == x
    ensures Repeat(f, x, k) == x
  {
    if k != 0 {
      RepeatFixed(f, x, k - 1);
    }
  }

  /** The differences seen by the convergence test shrink geometrically. */
  lemma SuccessiveDifference(g: Network, k: nat)
    requires IsNetwork(g)
    ensures L1(g, Iterate(g, k + 1), Iterate(g, k)) <= DampK(k, L1(g, Iterate(g, 1), Iterate(g, 0)))
  {
    var u := Uniform(g);
    RepeatAppend(Pass(g), u, 1, k);
    RunsApproach(g, Run(g, u, 1), u, k);
  }

  /** |Fz - Fy| <= 0.85 |z - y| <= 0.85 (|z - Fy| + |Fy - y|), with F one pass. */
  lemma TailStep(g: Network, z: Scores, y: Scores)
    requires IsNetwork(g)
    requires 0.15 * L1(g, z, Step(g, y)) <= Damp(L1(g, Step(g, y), y))
    ensures 0.15 * L1(g, Step(g, z), Step(g, y)) <= Damp(L1(g, Step(g, y), y))
  {
    Contraction(g, z, y);
    L1Triangle(g, z, Step(g, y), y);
  }

  lemma {:induction false} TailFrom(g: Network, y: Scores, more: nat)
    requires IsNetwork(g)
    ensures 0.15 * L1(g, Run(g, Step(g, y), more), Step(g, y)) <= Damp(L1(g, Step(g, y), y))
  {
    if more == 0 {
      L1NonNegative(g, Step(g, y), y);
      SumConstant(g.domains, Gap(Step(g, y), Step(g, y)), 0.0);
    } else {
      TailFrom(g, y, more - 1);
      TailStep(g, Run(g, Step(g, y), more - 1), y);
    }
  }

  /** Running the loop for `more` further passes moves the scores by at most 0.85 * diff / 0.15,
      where diff is the difference the convergence test saw at pass k. */
  lemma TailBound(g: Network, k: nat, more: nat)
    requires IsNetwork(g) && k > 0
    ensures 0.15 * L1(g, Iterate(g, k + more), Iterate(g, k)) <= Damp(L1(g, Iterate(g, k), Iterate(g, k - 1)))
  {
    TailFrom(g, Iterate(g, k - 1), more);
    RepeatAppend(Pass(g), Uniform(g), k, more);
  }

  // ---- Fixed points -----------------------------------------------------------------------------------------

  ghost predicate FixedPoint(g: Network, p: Scores) {
    Step(g, p) == p
  }

  lemma {:induction false} GapZero(ds: seq<string>, x: Scores, y: Scores)
    requires Sum(ds, Gap(x, y)) <= 0.0
    ensures forall d | d in ds :: At(x, d) == At(y, d)
  {
    if ds != [] {
      var init := ds[..|ds| - 1];
      SumConstant(init, Zero(), 0.0);
      SumMonotone(init, Zero(), Gap(x, y));
      GapZero(init, x, y);
      assert forall d | d in ds :: d in init || d == ds[|ds| - 1];
    }
  }

  lemma FixedPointUnique(g: Network, p: Scores, q: Scores)
    requires IsNetwork(g) && FixedPoint(g, p) && FixedPoint(g, q)
    ensures p == q
  {
    Contraction(g, p, q);
    GapZero(g.domains, p, q);
    assert p.Keys == q.Keys;
    forall d | d in p ensures p[d] == q[d] {
      assert At(p, d) == At(q, d);
    }
  }

  /** After a pass that moved the scores by diff, the result is within 0.85 * diff / 0.15 of every
      fixed point. */
  lemma DistanceToFixedPoint(g: Network, x: Scores, p: Scores)
    requires IsNetwork(g) && FixedPoint(g, p)
    ensures 0.15 * L1(g, Step(g, x), p) <= Damp(L1(g, Step(g, x), x))
  {
    Contraction(g, x, p);
    L1Triangle(g, x, Step(g, x), p);
    L1Symmetric(g, x, Step(g, x));
  }

  lemma IterateDistance(g: Network, k: nat, p: Scores)
    requires IsNetwork(g) && FixedPoint(g, p)
    ensures L1(g, Iterate(g, k), p) <= DampK(k, L1(g, Uniform(g), p))
  {
    RunsApproach(g, Uniform(g), p, k);
    RepeatFixed(Pass(g), p, k);
  }

  // ---- Mass -------------------------------------------------------------------------------------------------

  ghost function StepOf(g: Network, x: Scores): string -> real {
    t => StepAt(g, x, t)
  }

  ghost function BaseOf(g: Network): string -> real {
    t => Base(|g.domains|)
  }

  lemma BaseTotal(n: nat)
    requires n > 0
    ensures n as real * Base(n) == 0.15
  {
  }

  lemma StepOfTotal(g: Network, x: Scores)
    requires g.domains != []
    ensures Sum(g.domains, StepOf(g, x)) == 0.15 + Sum(g.domains, Damped(Arrives(g, Of(x))))
  {
    SumAdd(g.domains, StepOf(g, x), BaseOf(g), Damped(Arrives(g, Of(x))));
    SumConstant(g.domains, BaseOf(g), Base(|g.domains|));
    BaseTotal(|g.domains|);
  }

  /** A pass keeps 0.15 plus 0.85 of what the non-dangling domains held. */
  lemma StepTotal(g: Network, x: Scores)
    requires IsNetwork(g)
    ensures Total(g, Step(g, x)) == 0.15 + Damp(Sum(g.domains, Kept(g, Of(x))))
  {
    SumCongruent(g.domains, Of(Step(g, x)), StepOf(g, x));
    StepOfTotal(g, x);
    SumDamped(g.domains, Arrives(g, Of(x)));
    ReceivedTotal(g, Of(x));
  }

  ghost function Lost(g: Network, x: Scores): string -> real {
    s => if Dangling(g, s) then At(x, s) else 0.0
  }

  lemma {:induction false} LostPositive(g: Network, x: Scores, ds: seq<string>)
    requires forall d | d in ds :: At(x, d) > 0.0
    ensures Sum(ds, Lost(g, x)) >= 0.0
    ensures Sum(ds, Lost(g, x)) == 0.0 <==> forall d | d in ds :: !Dangling(g, d)
  {
    if ds != [] {
      var init, last := ds[..|ds| - 1], ds[|ds| - 1];
      assert ds == init + [last];
      LostPositive(g, x, init);
      assert At(x, last) > 0.0;
    }
  }

  lemma StepPositive(g: Network, x: Scores, t: string)
    requires IsNetwork(g) && t in g.domains
    requires forall s | s in g.domains :: At(x, s) >= 0.0
    ensures StepAt(g, x, t) >= Base(|g.domains|) > 0.0
  {
    forall s | s in g.domains ensures Zero()(s) <= Spread(g, Of(x), t)(s) {
      assert At(x, s) >= 0.0 && g.share(s, t) >= 0.0;
    }
    SumConstant(g.domains, Zero(), 0.0);
    SumMonotone(g.domains, Zero(), Spread(g, Of(x), t));
  }

  /** Every score stays at or above its equal share of 0.15. */
  lemma {:induction false} ScoreFloor(g: Network, k: nat)
    requires IsNetwork(g)
    ensures forall d | d in g.domains :: At(Iterate(g, k), d) >= Base(|g.domains|) > 0.0
  {
    if k != 0 {
      ScoreFloor(g, k - 1);
      forall d | d in g.domains ensures At(Iterate(g, k), d) >= Base(|g.domains|) > 0.0 {
        StepPositive(g, Iterate(g, k - 1), d);
        assert Iterate(g, k) == Step(g, Iterate(g, k - 1));
      }
    }
  }

  lemma KeptAndLost(g: Network, x: Scores)
    ensures Sum(g.domains, Kept(g, Of(x))) + Sum(g.domains, Lost(g, x)) == Total(g, x)
  {
    SumAdd(g.domains, Of(x), Kept(g, Of(x)), Lost(g, x));
  }

  ghost predicate NoDangling(g: Network) {
    forall d | d in g.domains :: !Dangling(g, d)
  }

  lemma UniformTotal(g: Network)
    requires g.domains != []
    ensures Total(g, Uniform(g)) == 1.0
  {
    SumConstant(g.domains, Of(Uniform(g)), 1.0 / |g.domains| as real);
  }

  lemma MassStep(g: Network, x: Scores)
    requires IsNetwork(g) && forall d | d in g.domains :: At(x, d) > 0.0
    ensures Total(g, Step(g, x)) == 0.15 + Damp(Total(g, x) - Sum(g.domains, Lost(g, x)))
    ensures Sum(g.domains, Lost(g, x)) >= 0.0
    ensures Sum(g.domains, Lost(g, x)) == 0.0 <==> NoDangling(g)
  {
    LostPositive(g, x, g.domains);
    KeptAndLost(g, x);
    StepTotal(g, x);
  }

  lemma MassBound(total: real, lost: real, next: real)
    requires next == 0.15 + Damp(total - lost) && total <= 1.0 && lost >= 0.0
    ensures next <= 1.0
    ensures lost == 0.0 && total == 1.0 ==> next == 1.0
    ensures lost > 0.0 ==> next < 1.0
  {
  }

  lemma IteratePositive(g: Network, k: nat)
    requires IsNetwork(g)
    ensures forall d | d in g.domains :: At(Iterate(g, k), d) > 0.0
  {
    ScoreFloor(g, k);
  }

  lemma MassNext(g: Network, x: Scores)
    requires IsNetwork(g) && Total(g, x) <= 1.0 && forall d | d in g.domains :: At(x, d) > 0.0
    ensures Total(g, Step(g, x)) <= 1.0
    ensures NoDangling(g) && Total(g, x) == 1.0 ==> Total(g, Step(g, x)) == 1.0
    ensures !NoDangling(g) ==> Total(g, Step(g, x)) < 1.0
  {
    MassStep(g, x);
    MassBound(Total(g, x), Sum(g.domains, Lost(g, x)), Total(g, Step(g, x)));
  }

  lemma IterateStep(g: Network, k: nat)
    ensures Iterate(g, k + 1) == Step(g, Iterate(g, k))
  {
  }

  /** The total is at most 1, and 1 if no domain is dangling; after a pass it is less otherwise. */
  ghost predicate MassAt(g: Network, total: real, passed: bool) {
    total <= 1.0 && (NoDangling(g) ==> total == 1.0) && (passed && !NoDangling(g) ==> total < 1.0)
  }

  lemma MassAfter(g: Network, x: Scores, y: Scores, passed: bool)
    requires IsNetwork(g) && y == Step(g, x) && forall d | d in g.domains :: At(x, d) > 0.0
    requires MassAt(g, Total(g, x), passed)
    ensures MassAt(g, Total(g, y), true)
  {
    MassNext(g, x);
  }

  lemma {:induction false} MassThen(g: Network, k: nat)
    requires IsNetwork(g)
    ensures MassAt(g, Total(g, Iterate(g, k)), k > 0)
  {
    if k == 0 {
      UniformTotal(g);
    } else {
      MassThen(g, k - 1);
      IteratePositive(g, k - 1);
      IterateStep(g, k - 1);
      MassAfter(g, Iterate(g, k - 1), Iterate(g, k), k - 1 > 0);
    }
  }

  /** The total never exceeds 1; after at least one pass it is 1 exactly when no domain is dangling. */
  lemma Mass(g: Network, k: nat)
    requires IsNetwork(g)
    ensures Total(g, Iterate(g, k)) <= 1.0
    ensures NoDangling(g) ==> Total(g, Iterate(g, k)) == 1.0
    ensures k > 0 && !NoDangling(g) ==> Total(g, Iterate(g, k)) < 1.0
  {
    MassThen(g, k);
  }

  // ---- Order of the domains ---------------------------------------------------------------------------------

  /** The same network with its domains listed in another order. */
  ghost predicate Reordered(g: Network, h: Network) {
    && multiset(g.domains) == multiset(h.domains)
    && forall s, t :: g.share(s, t) == h.share(s, t)
  }

  lemma SameDomains(ds: seq<string>, es: seq<string>)
    requires multiset(ds) == multiset(es)
    ensures |ds| == |es|
    ensures forall d :: d in ds <==> d in es
  {
    assert |ds| == |multiset(ds)| == |multiset(es)| == |es|;
    forall d ensures d in ds <==> d in es {
      assert d in ds <==> d in multiset(ds);
      assert d in es <==> d in multiset(es);
    }
  }

  lemma StepAtOrder(g: Network, h: Network, x: Scores, t: string)
    requires Reordered(g, h)
    ensures StepAt(g, x, t) == StepAt(h, x, t)
  {
    SameDomains(g.domains, h.domains);
    SumPermutation(g.domains, h.domains, Spread(g, Of(x), t));
    SumCongruent(h.domains, Spread(g, Of(x), t), Spread(h, Of(x), t));
  }

  lemma StepOrder(g: Network, h: Network, x: Scores)
    requires Reordered(g, h)
    ensures Step(g, x) == Step(h, x)
  {
    SameDomains(g.domains, h.domains);
    forall t ensures StepAt(g, x, t) == StepAt(h, x, t) {
      StepAtOrder(g, h, x, t);
    }
  }

  lemma {:induction false} RepeatCongruent<T(!new)>(f: T -> T, h: T -> T, x: T, k: nat)
    requires forall y :: f(y) == h(y)
    ensures Repeat(f, x, k) == Repeat(h, x, k)
  {
    if k != 0 {
      RepeatCongruent(f, h, x, k - 1);
    }
  }

  /** The passes read the domains only through sums, so visiting them in another order changes nothing. */
  lemma IterateOrder(g: Network, h: Network, k: nat)
    requires Reordered(g, h)
    ensures Iterate(g, k) == Iterate(h, k)
  {
    SameDomains(g.domains, h.domains);
    assert Uniform(g) == Uniform(h);
    forall x ensures Pass(g)(x) == Pass(h)(x) {
      StepOrder(g, h, x);
    }
    RepeatCongruent(Pass(g), Pass(h), Uniform(g), k);
  }

  lemma L1Order(g: Network, h: Network, x: Scores, y: Scores)
    requires multiset(g.domains) == multiset(h.domains)
    ensures L1(g, x, y) == L1(h, x, y)
  {
    SumPermutation(g.domains, h.domains, Gap(x, y));
  }
}
