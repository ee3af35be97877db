/** The limit of the propagation: every network has exactly one fixed point, found by eliminating one domain at a
    time, and the passes approach it geometrically. */
module Limit {
  import opened Sums
  import opened Propagation

  // ---- Linear systems x(t) = b(t) + sum of x(s) * a(s)(t) ------------------------------------------------------

  /** Coefficients that are never negative and whose total over ds is below 1, for every s in ds. */
  ghost predicate Diminishing(ds: seq<string>, a: string -> string -> real) {
    && (forall s, t :: a(s)(t) >= 0.0)
    && (forall s | s in ds :: Sum(ds, a(s)) < 1.0)
  }

  ghost function Column(a: string -> string -> real, x: string -> real, t: string): string -> real {
    s => x(s) * a(s)(t)
  }

  ghost predicate SolvesAt(
    ds: seq<string>, a: string -> string -> real, b: string -> real, x: string -> real, t: string
  ) {
    x(t) == b(t) + Sum(ds, Column(a, x, t))
  }

  ghost predicate Solves(ds: seq<string>, a: string -> string -> real, b: string -> real, x: string -> real) {
    forall t | t in ds :: SolvesAt(ds, a, b, x, t)
  }

  // ---- Eliminating the domain z --------------------------------------------------------------------------------

  /** What z hands on to t for each unit it gets from elsewhere, counting what it hands to itself. */
  ghost function Via(row: string -> real, c: real): string -> real {
    t => row(t) * c
  }

  ghost function Reduced(a: string -> string -> real, z: string, q: string -> real): string -> string -> real {
    s => ReducedRow(a(s), a(s)(z), q)
  }

  ghost function ReducedRow(row: string -> real, toZ: real, q: string -> real): string -> real {
    t => row(t) + toZ * q(t)
  }

  ghost function ReducedBase(b: string -> real, z: string, q: string -> real): string -> real {
    t => b(t) + b(z) * q(t)
  }

  ghost function Extended(x: string -> real, z: string, value: real): string -> real {
    s => if s == z then value else x(s)
  }

  lemma ProductAtMost(m: real, q: real)
    requires m >= 0.0 && q <= 1.0
    ensures m * q <= m
  {
    assert m * (1.0 - q) >= 0.0;
  }

  ghost function Times(m: real, q: string -> real): string -> real {
    t => m * q(t)
  }

  /** Going round by z adds no more to a row than its direct coefficient for z did. */
  lemma ReducedRowTotal(init: seq<string>, row: string -> real, toZ: real, q: string -> real)
    requires toZ >= 0.0 && Sum(init, q) <= 1.0
    ensures Sum(init, ReducedRow(row, toZ, q)) <= Sum(init, row) + toZ
  {
    SumAdd(init, ReducedRow(row, toZ, q), row, Times(toZ, q));
    SumScale(init, Times(toZ, q), toZ, q);
    ProductAtMost(toZ, Sum(init, q));
  }

  lemma ReducedDiminishes(init: seq<string>, z: string, a: string -> string -> real, q: string -> real)
    requires Diminishing(init + [z], a)
    requires (forall t :: q(t) >= 0.0) && Sum(init, q) <= 1.0
    ensures Diminishing(init, Reduced(a, z, q))
  {
    forall s, t ensures Reduced(a, z, q)(s)(t) >= 0.0 {
      ProductNonNegative(a(s)(z), q(t));
    }
    forall s | s in init ensures Sum(init, Reduced(a, z, q)(s)) < 1.0 {
      assert s in init + [z];
      SumLast(init, z, a(s));
      ReducedRowTotal(init, a(s), a(s)(z), q);
    }
  }

  lemma SumLast(init: seq<string>, z: string, f: string -> real)
    ensures Sum(init + [z], f) == Sum(init, f) + f(z)
  {
    assert (init + [z])[..|init|] == init;
  }

  lemma SumNonNegative(ds: seq<string>, f: string -> real)
    requires forall d :: f(d) >= 0.0
    ensures Sum(ds, f) >= 0.0
  {
    SumConstant(ds, Zero(), 0.0);
    SumMonotone(ds, Zero(), f);
  }

  lemma ViaTotal(init: seq<string>, row: string -> real, own: real, c: real)
    requires forall t :: row(t) >= 0.0
    requires Sum(init, row) + own < 1.0 && own < 1.0 && c == 1.0 / (1.0 - own)
    ensures forall t :: Via(row, c)(t) >= 0.0
    ensures Sum(init, Via(row, c)) <= 1.0
  {
    forall t ensures Via(row, c)(t) >= 0.0 {
      ProductNonNegative(row(t), c);
    }
    SumScale(init, Via(row, c), c, row);
    InverseBound(Sum(init, row), own, c);
  }

  lemma InverseBound(total: real, own: real, c: real)
    requires total + own < 1.0 && own < 1.0 && c == 1.0 / (1.0 - own)
    ensures c * total <= 1.0
  {
    assert c * (1.0 - own) == 1.0;
    ProductNonNegative(c, 1.0 - own - total);
    assert c * (1.0 - own - total) == c * (1.0 - own) - c * total;
  }

  lemma ExtendedColumn(
    init: seq<string>, z: string, a: string -> string -> real, x: string -> real, value: real, t: string
  )
    requires z !in init
    ensures Sum(init + [z], Column(a, Extended(x, z, value), t)) == Sum(init, Column(a, x, t)) + value * a(z)(t)
  {
    SumLast(init, z, Column(a, Extended(x, z, value), t));
    SumCongruent(init, Column(a, Extended(x, z, value), t), Column(a, x, t));
  }

  lemma Distribute(x: real, direct: real, toZ: real, q: real)
    ensures x * (direct + toZ * q) == x * direct + q * (x * toZ)
  {
  }

  lemma TimesTotal(init: seq<string>, col: string -> real, share: real, arrives: real)
    requires arrives == Sum(init, col)
    ensures Sum(init, Times(share, col)) == share * arrives
  {
    SumScale(init, Times(share, col), share, col);
  }

  lemma ReducedColumnAt(
    z: string, a: string -> string -> real, q: string -> real, x: string -> real, t: string, s: string
  )
    ensures Column(Reduced(a, z, q), x, t)(s) == Column(a, x, t)(s) + Times(q(t), Column(a, x, z))(s)
  {
    Distribute(x(s), a(s)(t), a(s)(z), q(t));
  }

  lemma ReducedColumn(
    init: seq<string>, z: string, a: string -> string -> real, q: string -> real, x: string -> real, t: string,
    arrives: real, share: real
  )
    requires arrives == Sum(init, Column(a, x, z)) && share == q(t)
    ensures Sum(init, Column(Reduced(a, z, q), x, t)) == Sum(init, Column(a, x, t)) + share * arrives
  {
    forall s ensures Column(Reduced(a, z, q), x, t)(s) == Column(a, x, t)(s) + Times(share, Column(a, x, z))(s) {
      ReducedColumnAt(z, a, q, x, t, s);
    }
    SumAdd(init, Column(Reduced(a, z, q), x, t), Column(a, x, t), Times(share, Column(a, x, z)));
    TimesTotal(init, Column(a, x, z), share, arrives);
  }

  lemma OwnEquation(rest: real, own: real, c: real, value: real)
    requires own < 1.0 && c == 1.0 / (1.0 - own) && value == rest * c
    ensures value == rest + value * own
  {
    assert c * (1.0 - own) == 1.0;
    assert value * (1.0 - own) == rest * (c * (1.0 - own));
  }

  lemma OtherEquation(
    x: real, b: real, bz: real, direct: real, arrivesZ: real, q: real, c: real, toT: real, value: real
  )
    requires x == (b + bz * q) + (direct + q * arrivesZ)
    requires q == toT * c && value == (bz + arrivesZ) * c
    ensures x == b + (direct + value * toT)
  {
    assert value * toT == (bz + arrivesZ) * (c * toT);
    assert (bz + arrivesZ) * q == bz * q + q * arrivesZ;
  }

  lemma ExtendedSolvesZ(
    init: seq<string>, z: string, a: string -> string -> real, b: string -> real, x: string -> real,
    own: real, c: real, arrives: real, value: real
  )
    requires z !in init && own == a(z)(z) && own < 1.0 && c == 1.0 / (1.0 - own)
    requires arrives == Sum(init, Column(a, x, z)) && value == (b(z) + arrives) * c
    ensures SolvesAt(init + [z], a, b, Extended(x, z, value), z)
  {
    ExtendedColumn(init, z, a, x, value, z);
    OwnEquation(b(z) + arrives, own, c, value);
  }

  lemma ReducedEquation(
    init: seq<string>, z: string, a: string -> string -> real, b: string -> real, x: string -> real,
    q: string -> real, t: string, direct: real, arrives: real, share: real
  )
    requires SolvesAt(init, Reduced(a, z, q), ReducedBase(b, z, q), x, t) && share == q(t)
    requires direct == Sum(init, Column(a, x, t)) && arrives == Sum(init, Column(a, x, z))
    ensures x(t) == (b(t) + b(z) * share) + (direct + share * arrives)
  {
    ReducedColumn(init, z, a, q, x, t, arrives, share);
  }

  lemma ExtendedEquation(
    init: seq<string>, z: string, a: string -> string -> real, b: string -> real, x: string -> real, t: string,
    direct: real, toT: real, value: real
  )
    requires z !in init && t in init && direct == Sum(init, Column(a, x, t)) && toT == a(z)(t)
    requires x(t) == b(t) + (direct + value * toT)
    ensures SolvesAt(init + [z], a, b, Extended(x, z, value), t)
  {
    ExtendedColumn(init, z, a, x, value, t);
  }

  lemma ExtendedSolvesAt(
    init: seq<string>, z: string, a: string -> string -> real, b: string -> real, x: string -> real,
    q: string -> real, c: real, arrives: real, value: real, t: string
  )
    requires z !in init && t in init && q == Via(a(z), c)
    requires SolvesAt(init, Reduced(a, z, q), ReducedBase(b, z, q), x, t)
    requires arrives == Sum(init, Column(a, x, z)) && value == (b(z) + arrives) * c
    ensures SolvesAt(init + [z], a, b, Extended(x, z, value), t)
  {
    var direct, share, toT := Sum(init, Column(a, x, t)), q(t), a(z)(t);
    ReducedEquation(init, z, a, b, x, q, t, direct, arrives, share);
    OtherEquation(x(t), b(t), b(z), direct, arrives, share, c, toT, value);
    ExtendedEquation(init, z, a, b, x, t, direct, toT, value);
  }

  lemma OwnBelowOne(init: seq<string>, z: string, a: string -> string -> real)
    requires Diminishing(init + [z], a)
    ensures Sum(init, a(z)) + a(z)(z) < 1.0 && a(z)(z) < 1.0
  {
    assert (init + [z])[|init|] == z;
    SumLast(init, z, a(z));
    SumNonNegative(init, a(z));
  }

  /** Such a system has a solution: solve it without its last domain, whose part the others take over. */
  lemma {:induction false} Solution(ds: seq<string>, a: string -> string -> real, b: string -> real)
    returns (x: string -> real)
    requires Distinct(ds) && Diminishing(ds, a)
    ensures Solves(ds, a, b, x)
  {
    if ds == [] {
      x := b;
    } else {
      var init, z := ds[..|ds| - 1], ds[|ds| - 1];
      assert ds == init + [z];
      OwnBelowOne(init, z, a);
      var own := a(z)(z);
      var c := 1.0 / (1.0 - own);
      var q := Via(a(z), c);
      ViaTotal(init, a(z), own, c);
      ReducedDiminishes(init, z, a, q);
      var rest := Solution(init, Reduced(a, z, q), ReducedBase(b, z, q));
      var arrives := Sum(init, Column(a, rest, z));
      var value := (b(z) + arrives) * c;
      x := Extended(rest, z, value);
      ExtendedSolvesZ(init, z, a, b, rest, own, c, arrives, value);
      forall t | t in ds ensures SolvesAt(ds, a, b, x, t) {
        if t != z {
          ExtendedSolvesAt(init, z, a, b, rest, q, c, arrives, value, t);
        }
      }
    }
  }

  // ---- The fixed point of a network ------------------------------------------------------------------------------

  ghost function DampedShares(g: Network): string -> string -> real {
    s => Damped(SharesFrom(g, s))
  }

  lemma DampedSharesDiminish(g: Network)
    requires IsNetwork(g)
    ensures Diminishing(g.domains, DampedShares(g))
  {
    forall s, t ensures DampedShares(g)(s)(t) >= 0.0 {
      assert g.share(s, t) >= 0.0;
      assert DampedShares(g)(s)(t) == Damp(g.share(s, t));
    }
    forall s | s in g.domains ensures Sum(g.domains, DampedShares(g)(s)) < 1.0 {
      SumDamped(g.domains, SharesFrom(g, s));
    }
  }

  ghost function FromFunction(g: Network, x: string -> real): Scores {
    map d | d in g.domains :: x(d)
  }

  lemma ColumnDamped(g: Network, x: string -> real, t: string)
    ensures Sum(g.domains, Column(DampedShares(g), x, t)) == Damp(Received(g, Of(FromFunction(g, x)), t))
  {
    var spread := Spread(g, Of(FromFunction(g, x)), t);
    forall s | s in g.domains ensures Column(DampedShares(g), x, t)(s) == Damped(spread)(s) {
      DampedProduct(x(s), g.share(s, t));
    }
    SumCongruent(g.domains, Column(DampedShares(g), x, t), Damped(spread));
    SumDamped(g.domains, spread);
  }

  lemma DampedProduct(x: real, share: real)
    ensures x * Damp(share) == Damp(x * share)
  {
  }

  lemma SolutionIsFixed(g: Network, x: string -> real)
    requires Solves(g.domains, DampedShares(g), BaseOf(g), x)
    ensures FixedPoint(g, FromFunction(g, x))
  {
    forall t | t in g.domains ensures StepAt(g, FromFunction(g, x), t) == x(t) {
      assert SolvesAt(g.domains, DampedShares(g), BaseOf(g), x, t);
      ColumnDamped(g, x, t);
    }
  }

  /** The propagation has a limit: one fixed point, the only one, and k passes leave at most 0.85^k of the start's
      distance from it. */
  lemma LimitExists(g: Network) returns (p: Scores)
    requires IsNetwork(g)
    ensures FixedPoint(g, p) && forall q | FixedPoint(g, q) :: q == p
    ensures forall k: nat :: L1(g, Iterate(g, k), p) <= DampK(k, L1(g, Uniform(g), p))
  {
    DampedSharesDiminish(g);
    var x := Solution(g.domains, DampedShares(g), BaseOf(g));
    SolutionIsFixed(g, x);
    p := FromFunction(g, x);
    forall q | FixedPoint(g, q) ensures q == p {
      FixedPointUnique(g, p, q);
    }
    forall k: nat ensures L1(g, Iterate(g, k), p) <= DampK(k, L1(g, Uniform(g), p)) {
      IterateDistance(g, k, p);
    }
  }
}
