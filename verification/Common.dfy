/** What several parts of the model share. */
module Common {

  datatype Option<+T> = None | Some(value: T)

  /** The first position of an element with property p, or the length of the list. */
  function IndexWhere<T>(xs: seq<T>, p: T -> bool): (i: nat)
    ensures i <= |xs|
    ensures i < |xs| ==> p(xs[i])
    ensures forall j | 0 <= j < i :: !p(xs[j])
  {
    if xs == [] || p(xs[0]) then 0 else 1 + IndexWhere(xs[1..], p)
  }

  lemma SubsetSize<T>(a: set<T>, b: set<T>)
    requires a <= b
    ensures |a| <= |b|
  {
    assert b == a + (b - a);
  }
}
