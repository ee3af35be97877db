/** Finite sums of reals over a sequence of indices, and the few algebraic laws the authority proofs need. */
module Sums {

  ghost function Sum<T>(xs: seq<T>, f: T -> real): real {
    if xs == [] then 0.0 else Sum(xs[..|xs| - 1], f) + f(xs[|xs| - 1])
  }

  function Abs(x: real): real {
    if x < 0.0 then -x else x
  }

  lemma ProductNonNegative(x: real, y: real)
    requires x >= 0.0 && y >= 0.0
    ensures x * y >= 0.0
  {
  }

  lemma ProductPositive(x: real, y: real)
    requires x > 0.0 && y > 0.0
    ensures x * y > 0.0
  {
  }

  ghost predicate Distinct<T>(xs: seq<T>) {
    forall i, j :: 0 <= i < j < |xs| ==> xs[i] != xs[j]
  }

  lemma SumPrefix<T>(xs: seq<T>, i: nat, f: T -> real)
    requires i < |xs|
    ensures Sum(xs[..i + 1], f) == Sum(xs[..i], f) + f(xs[i])
  {
    assert xs[..i + 1][..i] == xs[..i];
  }

  lemma {:induction false} SumCongruent<T>(xs: seq<T>, f: T -> real, g: T -> real)
    requires forall x | x in xs :: f(x) == g(x)
    ensures Sum(xs, f) == Sum(xs, g)
  {
    if xs != [] {
      SumCongruent(xs[..|xs| - 1], f, g);
    }
  }

  lemma {:induction false} SumMonotone<T>(xs: seq<T>, f: T -> real, g: T -> real)
    requires forall x | x in xs :: f(x) <= g(x)
    ensures Sum(xs, f) <= Sum(xs, g)
  {
    if xs != [] {
      SumMonotone(xs[..|xs| - 1], f, g);
    }
  }

  lemma {:induction false} SumConstant<T>(xs: seq<T>, f: T -> real, c: real)
    requires forall x | x in xs :: f(x) == c
    ensures Sum(xs, f) == |xs| as real * c
  {
    if xs != [] {
      SumConstant(xs[..|xs| - 1], f, c);
    }
  }

  lemma {:induction false} SumAdd<T>(xs: seq<T>, h: T -> real, f: T -> real, g: T -> real)
    requires forall x | x in xs :: h(x) == f(x) + g(x)
    ensures Sum(xs, h) == Sum(xs, f) + Sum(xs, g)
  {
    if xs != [] {
      SumAdd(xs[..|xs| - 1], h, f, g);
    }
  }

  lemma {:induction false} SumScale<T>(xs: seq<T>, h: T -> real, a: real, f: T -> real)
    requires forall x | x in xs :: h(x) == a * f(x)
    ensures Sum(xs, h) == a * Sum(xs, f)
  {
    if xs != [] {
      var init := xs[..|xs| - 1];
      SumScale(init, h, a, f);
      assert a * (Sum(init, f) + f(xs[|xs| - 1])) == a * Sum(init, f) + a * f(xs[|xs| - 1]);
    }
  }

  lemma {:induction false} SumTriangle<T>(xs: seq<T>, f: T -> real, g: T -> real)
    requires forall x | x in xs :: Abs(f(x)) <= g(x)
    ensures Abs(Sum(xs, f)) <= Sum(xs, g)
  {
    if xs != [] {
      SumTriangle(xs[..|xs| - 1], f, g);
    }
  }

  /** Interchange of two finite sums; `row` and `col` are the inner sums. */
  lemma {:induction false} SumSwap<T, U>(
    xs: seq<T>, ys: seq<U>, f: T -> U -> real, g: U -> T -> real, row: T -> real, col: U -> real
  )
    requires forall x, y | x in xs && y in ys :: f(x)(y) == g(y)(x)
    requires forall x | x in xs :: row(x) == Sum(ys, f(x))
    requires forall y | y in ys :: col(y) == Sum(xs, g(y))
    ensures Sum(xs, row) == Sum(ys, col)
  {
    if xs == [] {
      SumConstant(ys, col, 0.0);
    } else {
      var init, x := xs[..|xs| - 1], xs[|xs| - 1];
      var col' := (y: U) => Sum(init, g(y));
      SumSwap(init, ys, f, g, row, col');
      SumAdd(ys, col, col', f(x));
    }
  }

  ghost function Without<T>(xs: seq<T>, i: nat): seq<T>
    requires i < |xs|
  {
    xs[..i] + xs[i + 1..]
  }

  lemma WithoutMultiset<T>(xs: seq<T>, i: nat)
    requires i < |xs|
    ensures multiset(Without(xs, i)) == multiset(xs) - multiset{xs[i]}
  {
    assert xs == xs[..i] + [xs[i]] + xs[i + 1..];
  }

  lemma WithoutDistinct<T>(xs: seq<T>, i: nat)
    requires i < |xs| && Distinct(xs)
    ensures Distinct(Without(xs, i))
    ensures forall x :: x in Without(xs, i) <==> x in xs && x != xs[i]
  {
    var w := Without(xs, i);
    assert forall j :: 0 <= j < |w| ==> w[j] == xs[if j < i then j else j + 1];
    assert forall j :: 0 <= j < |xs| && j != i ==> xs[j] == w[if j < i then j else j - 1];
  }

  lemma {:induction false} SumWithout<T>(xs: seq<T>, i: nat, f: T -> real)
    requires i < |xs|
    ensures Sum(xs, f) == Sum(Without(xs, i), f) + f(xs[i])
  {
    var init, last := xs[..|xs| - 1], xs[|xs| - 1];
    if i == |xs| - 1 {
      assert Without(xs, i) == init;
    } else {
      SumWithout(init, i, f);
      var w := Without(xs, i);
      assert w == Without(init, i) + [last];
      assert w[..|w| - 1] == Without(init, i);
    }
  }

  /** A sum does not depend on the order in which its indices are visited. */
  lemma {:induction false} SumPermutation<T>(xs: seq<T>, ys: seq<T>, f: T -> real)
    requires multiset(xs) == multiset(ys)
    ensures Sum(xs, f) == Sum(ys, f)
  {
    if xs == [] {
      assert |multiset(ys)| == 0;
    } else {
      var x := xs[|xs| - 1];
      assert x in multiset(ys);
      var i :| 0 <= i < |ys| && ys[i] == x;
      assert xs == xs[..|xs| - 1] + [x];
      assert multiset(xs[..|xs| - 1]) == multiset(xs) - multiset{x};
      WithoutMultiset(ys, i);
      SumPermutation(xs[..|xs| - 1], Without(ys, i), f);
      SumWithout(ys, i, f);
    }
  }

  /** Two duplicate-free sequences over the same set are permutations of each other. */
  lemma {:induction false} DistinctPermutation<T>(xs: seq<T>, ys: seq<T>)
    requires Distinct(xs) && Distinct(ys)
    requires forall x :: x in xs <==> x in ys
    ensures multiset(xs) == multiset(ys)
  {
    forall x: T ensures multiset(xs)[x] == multiset(ys)[x] {
      DistinctOnce(xs, x);
      DistinctOnce(ys, x);
    }
  }

  lemma {:induction false} DistinctOnce<T>(xs: seq<T>, x: T)
    requires Distinct(xs)
    ensures multiset(xs)[x] == if x in xs then 1 else 0
  {
    if xs != [] {
      DistinctOnce(xs[..|xs| - 1], x);
      assert xs == xs[..|xs| - 1] + [xs[|xs| - 1]];
    }
  }

  /** Indices where the summand vanishes may be dropped. */
  lemma {:induction false} SumSupport<T>(xs: seq<T>, ys: seq<T>, f: T -> real)
    requires Distinct(xs) && Distinct(ys)
    requires forall j | 0 <= j < |ys| :: ys[j] in xs
    requires forall x | x in xs && x !in ys :: f(x) == 0.0
    ensures Sum(xs, f) == Sum(ys, f)
  {
    if xs == [] {
      assert Sum(ys, f) == 0.0;
    } else {
      var init, x := xs[..|xs| - 1], xs[|xs| - 1];
      if x in ys {
        var i :| 0 <= i < |ys| && ys[i] == x;
        WithoutDistinct(ys, i);
        SumSupport(init, Without(ys, i), f);
        SumWithout(ys, i, f);
      } else {
        SumSupport(init, ys, f);
      }
    }
  }
}
