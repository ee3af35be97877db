/** When the convergence test of the authority loop passes: exactly when the undamped propagation of equal scores
    has settled enough by the last pass, and for certain on links without cycles. */
module Convergence {
  import opened Sums
  import opened Propagation
  import opened LinkGraph

  // ---- The test passes if and only if the last pass moves little ---------------------------------------------

  lemma MovedShrinks(g: Network, k: nat)
    requires IsNetwork(g)
    ensures 0.0 <= Moved(g, k + 1) <= Damp(Moved(g, k)) <= Moved(g, k)
  {
    IterateNext(g, k);
    IterateNext(g, k + 1);
    Contraction(g, Iterate(g, k + 1), Iterate(g, k));
    L1NonNegative(g, Iterate(g, k + 2), Iterate(g, k + 1));
    L1NonNegative(g, Iterate(g, k + 1), Iterate(g, k));
  }

  ghost predicate FallsAt(m: nat -> real, k: nat) {
    m(k + 1) <= m(k)
  }

  lemma {:induction false} Falls(m: nat -> real, j: nat, k: nat)
    requires j <= k && forall i: nat :: FallsAt(m, i)
    ensures m(k) <= m(j)
  {
    if j < k {
      Falls(m, j, k - 1);
      assert FallsAt(m, k - 1);
    }
  }

  lemma MovedFalls(g: Network, j: nat, k: nat)
    requires IsNetwork(g) && j <= k
    ensures Moved(g, k) <= Moved(g, j)
  {
    forall i: nat ensures FallsAt(MovedAt(g), i) {
      MovedShrinks(g, i);
    }
    Falls(MovedAt(g), j, k);
  }

  /** The test that ends the loop passes exactly if the last of all possible passes would pass it. */
  lemma PassesIffLastWould(g: Network, k: nat)
    requires IsNetwork(g) && LoopStops(g, k)
    ensures Moved(g, k - 1) < CONVERGENCE_THRESHOLD <==> Moved(g, MAX_ITERATIONS - 1) < CONVERGENCE_THRESHOLD
  {
    hide Moved;
    LoopRange(g, k);
    if k < MAX_ITERATIONS {
      LoopPassed(g, k);
      MovedFalls(g, k - 1, MAX_ITERATIONS - 1);
    }
  }

  /** It passes if the change made by the first pass, damped by all the others, is below the threshold. */
  lemma PassesIfFirstIsSmall(g: Network, k: nat)
    requires IsNetwork(g) && LoopStops(g, k)
    requires DampK(MAX_ITERATIONS - 1, Moved(g, 0)) < CONVERGENCE_THRESHOLD
    ensures Moved(g, k - 1) < CONVERGENCE_THRESHOLD
  {
    SuccessiveDifference(g, MAX_ITERATIONS - 1);
    PassesIffLastWould(g, k);
  }

  // ---- What a pass changes, in terms of the links alone -------------------------------------------------------

  /** Scores handed on once along the links, undamped and with nothing added. */
  ghost function HandOn(g: Network, u: Scores): Scores {
    map d | d in g.domains :: Received(g, Of(u), d)
  }

  ghost function HandingOn(g: Network): Scores -> Scores {
    u => HandOn(g, u)
  }

  ghost function WalkFrom(g: Network, u: Scores, k: nat): Scores {
    Repeat(HandingOn(g), u, k)
  }

  /** Equal scores handed on k times along the links. */
  ghost function Walk(g: Network, k: nat): Scores {
    WalkFrom(g, Uniform(g), k)
  }

  lemma DampDifference(b: real, p: real, q: real)
    ensures (b + Damp(p)) - (b + Damp(q)) == Damp(p - q)
  {
  }

  lemma StepChange(g: Network, x: Scores, y: Scores, t: string)
    requires t in g.domains
    ensures Change(Step(g, x), Step(g, y))(t) == Damp(Received(g, Change(x, y), t))
  {
    ReceivedChange(g, x, y, t);
    DampDifference(Base(|g.domains|), Received(g, Of(x), t), Received(g, Of(y), t));
    assert At(Step(g, x), t) == StepAt(g, x, t);
    assert At(Step(g, y), t) == StepAt(g, y, t);
  }

  lemma HandOnChange(g: Network, u: Scores, v: Scores, t: string)
    requires t in g.domains
    ensures Change(HandOn(g, u), HandOn(g, v))(t) == Received(g, Change(u, v), t)
  {
    ReceivedChange(g, u, v, t);
  }

  /** One change is another one damped k times. */
  ghost predicate DampedBy(ds: seq<string>, f: string -> real, h: string -> real, k: nat) {
    forall d | d in ds :: f(d) == DampK(k, h(d))
  }

  lemma DampProduct(z: real, share: real)
    ensures Damp(z) * share == Damp(z * share)
  {
  }

  lemma {:induction false} DampKProduct(k: nat, z: real, share: real)
    ensures DampK(k, z) * share == DampK(k, z * share)
  {
    if k != 0 {
      DampKProduct(k - 1, z, share);
      DampProduct(DampK(k - 1, z), share);
    }
  }

  lemma {:induction false} DampKSum(k: nat, y: real, z: real)
    ensures DampK(k, y + z) == DampK(k, y) + DampK(k, z)
  {
    if k != 0 {
      DampKSum(k - 1, y, z);
    }
  }

  lemma {:induction false} DampKZero(k: nat)
    ensures DampK(k, 0.0) == 0.0
  {
    if k != 0 {
      DampKZero(k - 1);
    }
  }

  lemma {:induction false} DampKAbs(k: nat, z: real)
    ensures Abs(DampK(k, z)) == DampK(k, Abs(z))
  {
    if k != 0 {
      DampKAbs(k - 1, z);
    }
  }

  lemma {:induction false} SumDampedBy(ds: seq<string>, f: string -> real, h: string -> real, k: nat)
    requires DampedBy(ds, f, h, k)
    ensures Sum(ds, f) == DampK(k, Sum(ds, h))
  {
    if ds == [] {
      DampKZero(k);
    } else {
      var init, last := ds[..|ds| - 1], ds[|ds| - 1];
      SumDampedBy(init, f, h, k);
      DampKSum(k, Sum(init, h), h(last));
    }
  }

  lemma SpreadDamped(g: Network, f: string -> real, h: string -> real, k: nat, t: string, s: string)
    requires f(s) == DampK(k, h(s))
    ensures Spread(g, f, t)(s) == DampK(k, Spread(g, h, t)(s))
  {
    DampKProduct(k, h(s), g.share(s, t));
    assert Spread(g, f, t)(s) == f(s) * g.share(s, t);
    assert Spread(g, h, t)(s) == h(s) * g.share(s, t);
  }

  lemma ReceivedDamped(g: Network, f: string -> real, h: string -> real, k: nat, t: string)
    requires DampedBy(g.domains, f, h, k)
    ensures Received(g, f, t) == DampK(k, Received(g, h, t))
  {
    forall s | s in g.domains ensures Spread(g, f, t)(s) == DampK(k, Spread(g, h, t)(s)) {
      assert f(s) == DampK(k, h(s));
      SpreadDamped(g, f, h, k, t, s);
    }
    SumDampedBy(g.domains, Spread(g, f, t), Spread(g, h, t), k);
  }

  lemma StepDampedAt(g: Network, x: Scores, y: Scores, u: Scores, v: Scores, k: nat, t: string)
    requires DampedBy(g.domains, Change(x, y), Change(u, v), k) && t in g.domains
    ensures Change(Step(g, x), Step(g, y))(t) == DampK(k + 1, Change(HandOn(g, u), HandOn(g, v))(t))
  {
    StepChange(g, x, y, t);
    HandOnChange(g, u, v, t);
    ReceivedDamped(g, Change(x, y), Change(u, v), k, t);
  }

  lemma StepDamped(g: Network, x: Scores, y: Scores, u: Scores, v: Scores, k: nat)
    requires DampedBy(g.domains, Change(x, y), Change(u, v), k)
    ensures DampedBy(g.domains, Change(Step(g, x), Step(g, y)), Change(HandOn(g, u), HandOn(g, v)), k + 1)
  {
    var moved, walked := Change(Step(g, x), Step(g, y)), Change(HandOn(g, u), HandOn(g, v));
    forall t | t in g.domains ensures moved(t) == DampK(k + 1, walked(t)) {
      StepDampedAt(g, x, y, u, v, k, t);
    }
  }

  /** The walk after each step. */
  ghost function Walks(g: Network): nat -> Scores {
    (k: nat) => Walk(g, k)
  }

  ghost predicate StepsAt(g: Network, xs: nat -> Scores, k: nat) {
    xs(k + 1) == Step(g, xs(k))
  }

  ghost predicate HandsOnAt(g: Network, us: nat -> Scores, k: nat) {
    us(k + 1) == HandOn(g, us(k))
  }

  ghost predicate ChangeDamped(g: Network, xs: nat -> Scores, us: nat -> Scores, k: nat) {
    DampedBy(g.domains, Change(xs(k + 1), xs(k)), Change(us(k + 1), us(k)), k + 1)
  }

  lemma ChangeDampedNext(g: Network, xs: nat -> Scores, us: nat -> Scores, k: nat)
    requires StepsAt(g, xs, k) && StepsAt(g, xs, k + 1) && HandsOnAt(g, us, k) && HandsOnAt(g, us, k + 1)
    requires ChangeDamped(g, xs, us, k)
    ensures ChangeDamped(g, xs, us, k + 1)
  {
    StepDamped(g, xs(k + 1), xs(k), us(k + 1), us(k), k + 1);
  }

  lemma {:induction false} ChangesDamped(g: Network, xs: nat -> Scores, us: nat -> Scores, k: nat)
    requires forall i: nat :: StepsAt(g, xs, i)
    requires forall i: nat :: HandsOnAt(g, us, i)
    requires ChangeDamped(g, xs, us, 0)
    ensures ChangeDamped(g, xs, us, k)
  {
    if k != 0 {
      var i := k - 1;
      assert StepsAt(g, xs, i) && StepsAt(g, xs, i + 1) && HandsOnAt(g, us, i) && HandsOnAt(g, us, i + 1);
      ChangesDamped(g, xs, us, i);
      ChangeDampedNext(g, xs, us, i);
    }
  }

  lemma BaseShare(n: nat, r: real)
    requires n > 0
    ensures Base(n) + Damp(r) - 1.0 / n as real == Damp(r - 1.0 / n as real)
  {
    assert Base(n) == 0.15 * (1.0 / n as real);
  }

  lemma FirstDamped(g: Network)
    ensures DampedBy(g.domains, Change(Step(g, Uniform(g)), Uniform(g)), Change(HandOn(g, Uniform(g)), Uniform(g)), 1)
  {
    var x := Uniform(g);
    forall t | t in g.domains ensures Change(Step(g, x), x)(t) == DampK(1, Change(HandOn(g, x), x)(t)) {
      BaseShare(|g.domains|, Received(g, Of(x), t));
      assert At(Step(g, x), t) == StepAt(g, x, t);
      assert DampK(1, Change(HandOn(g, x), x)(t)) == Damp(Change(HandOn(g, x), x)(t));
    }
  }

  lemma IteratesStep(g: Network)
    ensures forall i: nat :: StepsAt(g, Iterates(g), i)
  {
    forall i: nat ensures StepsAt(g, Iterates(g), i) {
      IterateNext(g, i);
    }
  }

  lemma WalksHandOn(g: Network)
    ensures forall i: nat :: HandsOnAt(g, Walks(g), i)
  {
  }

  lemma FirstChange(g: Network, xs: nat -> Scores, us: nat -> Scores)
    requires StepsAt(g, xs, 0) && HandsOnAt(g, us, 0) && xs(0) == us(0) == Uniform(g)
    ensures ChangeDamped(g, xs, us, 0)
  {
    FirstDamped(g);
  }

  /** Pass k changes each score by 0.85^(k + 1) times what the walk's step k changes. */
  lemma ChangeIsWalk(g: Network, k: nat)
    ensures ChangeDamped(g, Iterates(g), Walks(g), k)
  {
    IteratesStep(g);
    WalksHandOn(g);
    assert StepsAt(g, Iterates(g), 0) && HandsOnAt(g, Walks(g), 0);
    FirstChange(g, Iterates(g), Walks(g));
    ChangesDamped(g, Iterates(g), Walks(g), k);
  }

  lemma DistanceDamped(g: Network, x: Scores, y: Scores, u: Scores, v: Scores, k: nat)
    requires DampedBy(g.domains, Change(x, y), Change(u, v), k)
    ensures L1(g, x, y) == DampK(k, L1(g, u, v))
  {
    forall d | d in g.domains ensures Gap(x, y)(d) == DampK(k, Gap(u, v)(d)) {
      assert Change(x, y)(d) == DampK(k, Change(u, v)(d));
      DampKAbs(k, Change(u, v)(d));
    }
    SumDampedBy(g.domains, Gap(x, y), Gap(u, v), k);
  }

  /** What the walk's step k changes in all. */
  ghost function Walked(g: Network, k: nat): real {
    L1(g, Walk(g, k + 1), Walk(g, k))
  }

  /** The change seen by the convergence test is 0.85^(k + 1) times the walk's. */
  lemma MovedIsWalked(g: Network, k: nat)
    ensures Moved(g, k) == DampK(k + 1, Walked(g, k))
  {
    ChangeIsWalk(g, k);
    DistanceDamped(g, Iterates(g)(k + 1), Iterates(g)(k), Walks(g)(k + 1), Walks(g)(k), k + 1);
  }

  /** The convergence test passes if and only if the last step of the undamped walk along the links, damped twenty
      times, is below the threshold. */
  lemma ConvergesIff(g: Network, k: nat)
    requires IsNetwork(g) && LoopStops(g, k)
    ensures Moved(g, k - 1) < CONVERGENCE_THRESHOLD
       <==> DampK(MAX_ITERATIONS, Walked(g, MAX_ITERATIONS - 1)) < CONVERGENCE_THRESHOLD
  {
    PassesIffLastWould(g, k);
    MovedIsWalked(g, MAX_ITERATIONS - 1);
  }

  // ---- Links without cycles ------------------------------------------------------------------------------------

  /** Every link leads from a lower to a higher rank, and all ranks are below n: no cycle, and no path of n links. */
  ghost predicate Ranked(g: Network, rank: string -> int, n: nat) {
    && (forall d | d in g.domains :: 0 <= rank(d) < n)
    && (forall s, t | s in g.domains && t in g.domains && rank(s) >= rank(t) :: g.share(s, t) == 0.0)
  }

  ghost predicate AgreeBelow(g: Network, rank: string -> int, k: nat, x: Scores, y: Scores) {
    forall d | d in g.domains && rank(d) < k :: At(x, d) == At(y, d)
  }

  lemma SpreadSettled(x: real, y: real, share: real)
    requires x == y || share == 0.0
    ensures x * share == y * share
  {
  }

  lemma ReceivedSettled(g: Network, rank: string -> int, n: nat, k: nat, x: Scores, y: Scores, t: string)
    requires Ranked(g, rank, n) && t in g.domains && rank(t) < k + 1
    requires AgreeBelow(g, rank, k, x, y)
    ensures Received(g, Of(x), t) == Received(g, Of(y), t)
  {
    forall s | s in g.domains ensures Spread(g, Of(x), t)(s) == Spread(g, Of(y), t)(s) {
      SpreadSettled(At(x, s), At(y, s), g.share(s, t));
    }
    SumCongruent(g.domains, Spread(g, Of(x), t), Spread(g, Of(y), t));
  }

  lemma StepSettled(g: Network, rank: string -> int, n: nat, k: nat, x: Scores, y: Scores)
    requires Ranked(g, rank, n) && AgreeBelow(g, rank, k, x, y)
    ensures AgreeBelow(g, rank, k + 1, Step(g, x), Step(g, y))
  {
    forall t | t in g.domains && rank(t) < k + 1 ensures At(Step(g, x), t) == At(Step(g, y), t) {
      ReceivedSettled(g, rank, n, k, x, y, t);
      assert At(Step(g, x), t) == StepAt(g, x, t);
      assert At(Step(g, y), t) == StepAt(g, y, t);
    }
  }

  ghost predicate SettledBelow(g: Network, rank: string -> int, xs: nat -> Scores, k: nat) {
    AgreeBelow(g, rank, k, xs(k + 1), xs(k))
  }

  lemma {:induction false} Settles(g: Network, rank: string -> int, n: nat, xs: nat -> Scores, k: nat)
    requires Ranked(g, rank, n) && forall i: nat :: StepsAt(g, xs, i)
    ensures SettledBelow(g, rank, xs, k)
  {
    if k != 0 {
      Settles(g, rank, n, xs, k - 1);
      assert StepsAt(g, xs, k - 1) && StepsAt(g, xs, k);
      StepSettled(g, rank, n, k - 1, xs(k), xs(k - 1));
    }
  }

  lemma AgreedDistance(g: Network, rank: string -> int, n: nat, k: nat, x: Scores, y: Scores)
    requires Ranked(g, rank, n) && n <= k && AgreeBelow(g, rank, k, x, y)
    ensures L1(g, x, y) == 0.0
  {
    forall d | d in g.domains ensures Gap(x, y)(d) == 0.0 {
      assert At(x, d) == At(y, d);
    }
    SumConstant(g.domains, Gap(x, y), 0.0);
  }

  /** After as many passes as there are ranks, nothing moves any more. */
  lemma SettledAfter(g: Network, rank: string -> int, n: nat, k: nat)
    requires Ranked(g, rank, n) && n <= k
    ensures Moved(g, k) == 0.0
  {
    IteratesStep(g);
    Settles(g, rank, n, Iterates(g), k);
    assert SettledBelow(g, rank, Iterates(g), k);
    AgreedDistance(g, rank, n, k, Iterate(g, k + 1), Iterate(g, k));
  }

  lemma StopsOnceSettled(g: Network, n: nat, k: nat)
    requires LoopStops(g, k) && n < MAX_ITERATIONS && Moved(g, n) == 0.0
    requires k - 1 >= n ==> Moved(g, k - 1) == 0.0
    ensures Moved(g, k - 1) < CONVERGENCE_THRESHOLD && k <= n + 1
  {
    if n < k - 1 {
      LoopWentOn(g, k, n);
      assert false;
    } else if k < MAX_ITERATIONS {
      LoopPassed(g, k);
    }
  }

  /** On links without cycles and without a path through twenty domains the test always passes, at the latest one pass
      after as many as the longest path has domains. */
  lemma AcyclicConverges(g: Network, rank: string -> int, n: nat, k: nat)
    requires Ranked(g, rank, n) && n < MAX_ITERATIONS && LoopStops(g, k)
    ensures Moved(g, k - 1) < CONVERGENCE_THRESHOLD && k <= n + 1
  {
    hide *;
    LoopRange(g, k);
    SettledAfter(g, rank, n, n);
    if k - 1 >= n {
      SettledAfter(g, rank, n, k - 1);
    }
    StopsOnceSettled(g, n, k);
  }
}
