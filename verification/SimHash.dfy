/** SimHash: shingles of a text, their majority-vote fingerprint, and how far an edit can move it. */
module SimHash {
  import opened Bits

  const NUM_BITS: nat := 64
  const SHINGLE_WIDTH: nat := 3

  /** Lower-casing and splitting into words, and the first 8 bytes of the MD5 digest, are left abstract. */
  datatype Hashing = Hashing(words: string -> seq<string>, digest: string -> nat)

  function Join(words: seq<string>): string {
    if words == [] then ""
    else if |words| == 1 then words[0]
    else words[0] + " " + Join(words[1..])
  }

  /** _tokenize, on the words of a text. */
  function Shingles(words: seq<string>, width: nat): seq<string> {
    if |words| < width then (if words == [] then [] else [Join(words)])
    else seq(|words| - width + 1, i requires 0 <= i <= |words| - width => Join(words[i..i + width]))
  }

  lemma JoinFew(a: string, b: string, c: string)
    ensures Join([a]) == a && Join([a, b]) == a + " " + b && Join([a, b, c]) == a + " " + b + " " + c
  {
    assert [a, b][1..] == [b] && [b, c][1..] == [c] && [a, b, c][1..] == [b, c];
    assert Join([b, c]) == b + " " + c;
    assert a + " " + (b + " " + c) == a + " " + b + " " + c;
  }

  lemma ShinglesOfFew(words: seq<string>)
    requires |words| < 3
    ensures words == [] ==> Shingles(words, 3) == []
    ensures |words| == 1 ==> Shingles(words, 3) == [words[0]]
    ensures |words| == 2 ==> Shingles(words, 3) == [words[0] + " " + words[1]]
  {
    if |words| == 1 {
      assert words == [words[0]];
      JoinFew(words[0], "", "");
    } else if |words| == 2 {
      assert words == [words[0], words[1]];
      JoinFew(words[0], words[1], "");
    }
  }

  lemma ShingleAt(words: seq<string>, i: nat)
    requires i < |words| - 2
    ensures |Shingles(words, 3)| == |words| - 2
    ensures Shingles(words, 3)[i] == words[i] + " " + words[i + 1] + " " + words[i + 2]
  {
    hide Join;
    assert words[i..i + 3] == [words[i], words[i + 1], words[i + 2]];
    JoinFew(words[i], words[i + 1], words[i + 2]);
  }

  /** The shingles of a text: every three words that follow one another with blanks between them, or all its words
      where it has no three. */
  lemma ShinglesOfText(words: seq<string>)
    ensures words == [] ==> Shingles(words, 3) == []
    ensures |words| == 1 ==> Shingles(words, 3) == [words[0]]
    ensures |words| == 2 ==> Shingles(words, 3) == [words[0] + " " + words[1]]
    ensures |words| >= 3 ==>
              && |Shingles(words, 3)| == |words| - 2
              && forall i | 0 <= i < |words| - 2 ::
                   Shingles(words, 3)[i] == words[i] + " " + words[i + 1] + " " + words[i + 2]
  {
    hide Shingles;
    if |words| < 3 {
      ShinglesOfFew(words);
    } else {
      ShingleAt(words, 0);
      forall i | 0 <= i < |words| - 2
        ensures Shingles(words, 3)[i] == words[i] + " " + words[i + 1] + " " + words[i + 2]
      {
        ShingleAt(words, i);
      }
    }
  }

  // ---- The vote ---------------------------------------------------------------------------------------------

  function VoteOf(h: nat, i: nat): int {
    if Bit(h, i) then 1 else -1
  }

  /** The weight of bit i: one vote per shingle. */
  function Votes(hs: seq<nat>, i: nat): int {
    if hs == [] then 0 else Votes(hs[..|hs| - 1], i) + VoteOf(hs[|hs| - 1], i)
  }

  function Collapse(hs: seq<nat>, n: nat): (fp: nat)
    ensures fp < Pow2(n)
  {
    if n == 0 then 0 else Collapse(hs, n - 1) + (if Votes(hs, n - 1) >= 0 then Pow2(n - 1) else 0)
  }

  function Fingerprint(hs: seq<nat>): (fp: nat)
    ensures fp < Pow2(NUM_BITS)
  {
    if hs == [] then
      assert Pow2(NUM_BITS) > 0;
      0
    else Collapse(hs, NUM_BITS)
  }

  function Digests(h: Hashing, shingles: seq<string>): seq<nat> {
    seq<nat>(|shingles|, i requires 0 <= i < |shingles| => h.digest(shingles[i]))
  }

  function SimHashOf(h: Hashing, text: string, width: nat): nat {
    Fingerprint(Digests(h, Shingles(h.words(text), width)))
  }

  lemma {:induction false} CollapseBits(hs: seq<nat>, n: nat, i: nat)
    ensures Bit(Collapse(hs, n), i) <==> i < n && Votes(hs, i) >= 0
  {
    if n == 0 {
      ZeroHasNoBits(i);
    } else {
      CollapseBits(hs, n - 1, i);
      AddTopBit(Collapse(hs, n - 1), n - 1, i);
    }
  }

  /** The positions of the hashes that have bit i. */
  ghost function Having(hs: seq<nat>, i: nat): set<nat> {
    set n: nat | n < |hs| && Bit(hs[n], i)
  }

  lemma {:induction false} VotesCount(hs: seq<nat>, i: nat)
    ensures Votes(hs, i) == 2 * |Having(hs, i)| - |hs|
  {
    if hs == [] {
      assert Having(hs, i) == {};
    } else {
      var n := |hs| - 1;
      VotesCount(hs[..n], i);
      assert Having(hs, i) == Having(hs[..n], i) + if Bit(hs[n], i) then {n} else {};
    }
  }

  lemma BitsByVotes(hs: seq<nat>, i: nat)
    ensures Bit(Fingerprint(hs), i) <==> hs != [] && i < NUM_BITS && Votes(hs, i) >= 0
  {
    if hs == [] {
      ZeroHasNoBits(i);
    } else {
      CollapseBits(hs, NUM_BITS, i);
    }
  }

  /** A fingerprint bit is set exactly when at least half of the shingles' hashes have it. */
  lemma FingerprintBits(hs: seq<nat>, i: nat)
    ensures Bit(Fingerprint(hs), i) <==> hs != [] && i < 64 && 2 * |Having(hs, i)| >= |hs|
  {
    BitsByVotes(hs, i);
    VotesCount(hs, i);
  }

  /** 1 << i or'ed into a number that has no bit from i on. */
  method SetBit(x: nat, i: nat) returns (y: nat)
    requires x < Pow2(i)
    ensures forall k: nat :: Bit(y, k) <==> Bit(x, k) || k == i
    ensures y == x + Pow2(i)
  {
    y := x + Pow2(i);
    forall k: nat ensures Bit(y, k) <==> Bit(x, k) || k == i {
      AddTopBit(x, i, k);
    }
  }

  lemma VotesPush(hs: seq<nat>, h: nat, i: nat)
    ensures Votes(hs + [h], i) == Votes(hs, i) + VoteOf(h, i)
  {
    assert (hs + [h])[..|hs|] == hs;
  }

  method CountVotes(h: Hashing, shingles: seq<string>) returns (vector: array<int>)
    ensures fresh(vector) && vector.Length == NUM_BITS
    ensures forall i: nat | i < NUM_BITS :: vector[i] == Votes(Digests(h, shingles), i)
  {
    vector := new int[NUM_BITS](_ => 0);
    ghost var hs := Digests(h, shingles);
    for n := 0 to |shingles|
      invariant forall i: nat | i < NUM_BITS :: vector[i] == Votes(hs[..n], i)
    {
      var digest := h.digest(shingles[n]);
      for i := 0 to NUM_BITS
        invariant forall j: nat | j < i :: vector[j] == Votes(hs[..n], j) + VoteOf(digest, j)
        invariant forall j: nat | i <= j < NUM_BITS :: vector[j] == Votes(hs[..n], j)
      {
        vector[i] := vector[i] + if Bit(digest, i) then 1 else -1;
      }
      forall i: nat | i < NUM_BITS ensures Votes(hs[..n + 1], i) == Votes(hs[..n], i) + VoteOf(digest, i) {
        assert hs[..n + 1] == hs[..n] + [digest];
        VotesPush(hs[..n], digest, i);
      }
    }
    assert hs[..|shingles|] == hs;
  }

  /** simhash. */
  method Compute(h: Hashing, text: string, width: nat) returns (fingerprint: nat)
    ensures fingerprint == SimHashOf(h, text, width)
  {
    var shingles := Shingles(h.words(text), width);
    if shingles == [] {
      return 0;
    }
    var vector := CountVotes(h, shingles);
    ghost var hs := Digests(h, shingles);
    fingerprint := 0;
    for i := 0 to NUM_BITS
      invariant fingerprint == Collapse(hs, i)
      invariant forall j: nat | j < NUM_BITS :: vector[j] == Votes(hs, j)
    {
      ghost var below: nat := i;
      if vector[i] >= 0 {
        fingerprint := SetBit(fingerprint, i);
      }
      assert fingerprint == Collapse(hs, below + 1);
    }
  }

  // ---- Hamming distance -------------------------------------------------------------------------------------

  function HammingDistance(a: nat, b: nat): nat {
    PopCount(Xor(a, b))
  }

  predicate Near(a: nat, b: nat, threshold: int) {
    HammingDistance(a, b) <= threshold
  }

  /** How many of the bits 0, ..., n - 1 differ. */
  function Differing(a: nat, b: nat, n: nat): nat {
    if n == 0 then 0 else Differing(a, b, n - 1) + One(Bit(a, n - 1) != Bit(b, n - 1))
  }

  lemma {:induction false} SetBitsOfXor(a: nat, b: nat, n: nat)
    ensures SetBits(Xor(a, b), n) == Differing(a, b, n)
  {
    if n > 0 {
      SetBitsOfXor(a, b, n - 1);
      XorBit(a, b, n - 1);
    }
  }

  /** The Hamming distance counts the differing bits. */
  lemma DistanceCountsBits(a: nat, b: nat, n: nat)
    requires a < Pow2(n) && b < Pow2(n)
    ensures HammingDistance(a, b) == Differing(a, b, n) <= n
  {
    XorBelow(a, b, n);
    PopCountIsSetBits(Xor(a, b), n);
    SetBitsOfXor(a, b, n);
    DifferingAtMost(a, b, n);
  }

  lemma {:induction false} DifferingAtMost(a: nat, b: nat, n: nat)
    ensures Differing(a, b, n) <= n
  {
    if n > 0 {
      DifferingAtMost(a, b, n - 1);
    }
  }

  lemma {:induction false} DifferingTriangle(a: nat, b: nat, c: nat, n: nat)
    ensures Differing(a, c, n) <= Differing(a, b, n) + Differing(b, c, n)
    ensures Differing(a, b, n) == Differing(b, a, n)
  {
    if n > 0 {
      DifferingTriangle(a, b, c, n - 1);
    }
  }

  predicate SameBelow(a: nat, b: nat, n: nat) {
    forall i: nat | i < n :: Bit(a, i) == Bit(b, i)
  }

  lemma SameBelowStep(a: nat, b: nat, n: nat)
    ensures SameBelow(a, b, n + 1) <==> SameBelow(a, b, n) && Bit(a, n) == Bit(b, n)
  {
    if SameBelow(a, b, n) && Bit(a, n) == Bit(b, n) {
      forall i: nat | i < n + 1 ensures Bit(a, i) == Bit(b, i) {
        assert i < n || i == n;
      }
    }
  }

  lemma {:induction false} NoDifference(a: nat, b: nat, n: nat)
    ensures Differing(a, b, n) == 0 <==> SameBelow(a, b, n)
  {
    if n > 0 {
      NoDifference(a, b, n - 1);
      SameBelowStep(a, b, n - 1);
    }
  }

  /** The distance is a metric. */
  lemma DistanceIsMetric(a: nat, b: nat, c: nat)
    ensures HammingDistance(a, b) == 0 <==> a == b
    ensures HammingDistance(a, b) == HammingDistance(b, a)
    ensures HammingDistance(a, c) <= HammingDistance(a, b) + HammingDistance(b, c)
  {
    var m := CommonWidth(a, b);
    var n := CommonWidth(Pow2(m), c);
    DistanceCountsBits(a, b, n);
    DistanceCountsBits(b, a, n);
    DistanceCountsBits(b, c, n);
    DistanceCountsBits(a, c, n);
    DifferingTriangle(a, b, c, n);
    NoDifference(a, b, n);
    if HammingDistance(a, b) == 0 {
      forall i: nat ensures Bit(a, i) == Bit(b, i) {
        if i >= n {
          HighBitsClear(a, n, i);
          HighBitsClear(b, n, i);
        }
      }
      SameBits(a, b);
    }
  }

  // ---- Stability --------------------------------------------------------------------------------------------

  function Abs(x: int): nat {
    if x < 0 then -x else x
  }

  /** The insertions and deletions that turn one list of digests into the other, up to order. */
  ghost function Edits(xs: seq<nat>, ys: seq<nat>): nat {
    |multiset(xs) - multiset(ys)| + |multiset(ys) - multiset(xs)|
  }

  function Without<T>(xs: seq<T>, p: nat): seq<T>
    requires p < |xs|
  {
    xs[..p] + xs[p + 1..]
  }

  lemma {:induction false} VotesWithout(hs: seq<nat>, p: nat, i: nat)
    requires p < |hs|
    ensures Votes(hs, i) == Votes(Without(hs, p), i) + VoteOf(hs[p], i)
  {
    var n := |hs| - 1;
    if p == n {
      assert Without(hs, p) == hs[..n];
    } else {
      VotesWithout(hs[..n], p, i);
      assert Without(hs, p) == Without(hs[..n], p) + [hs[n]];
      VotesPush(Without(hs[..n], p), hs[n], i);
    }
  }

  lemma WithoutMultiset<T>(xs: seq<T>, p: nat)
    requires p < |xs|
    ensures multiset(xs) == multiset(Without(xs, p)) + multiset{xs[p]}
  {
    assert xs == xs[..p] + ([xs[p]] + xs[p + 1..]);
  }

  lemma {:induction false} VotesAtMost(hs: seq<nat>, i: nat)
    ensures Abs(Votes(hs, i)) <= |hs|
  {
    if hs != [] {
      VotesAtMost(hs[..|hs| - 1], i);
    }
  }

  lemma EditsShared(xs: seq<nat>, p: nat, ys: seq<nat>, q: nat)
    requires p < |xs| && q < |ys| && xs[p] == ys[q]
    ensures Edits(xs, ys) == Edits(Without(xs, p), Without(ys, q))
  {
    WithoutMultiset(xs, p);
    WithoutMultiset(ys, q);
    var a, b, x := multiset(Without(xs, p)), multiset(Without(ys, q)), multiset{xs[p]};
    assert (a + x) - (b + x) == a - b && (b + x) - (a + x) == b - a;
  }

  lemma EditsExtra(xs: seq<nat>, p: nat, ys: seq<nat>)
    requires p < |xs| && xs[p] !in ys
    ensures Edits(xs, ys) == Edits(Without(xs, p), ys) + 1
  {
    WithoutMultiset(xs, p);
    var a, b, x := multiset(Without(xs, p)), multiset(ys), multiset{xs[p]};
    assert xs[p] !in b;
    assert (a + x) - b == (a - b) + x && b - (a + x) == b - a;
  }

  lemma VotesMoveShared(xs: seq<nat>, p: nat, ys: seq<nat>, q: nat, i: nat)
    requires p < |xs| && q < |ys| && xs[p] == ys[q]
    ensures Votes(xs, i) - Votes(ys, i) == Votes(Without(xs, p), i) - Votes(Without(ys, q), i)
  {
    VotesWithout(xs, p, i);
    VotesWithout(ys, q, i);
  }

  lemma VotesMoveExtra(xs: seq<nat>, p: nat, i: nat)
    requires p < |xs|
    ensures -1 <= Votes(xs, i) - Votes(Without(xs, p), i) <= 1
  {
    VotesWithout(xs, p, i);
  }

  function IndexOf(xs: seq<nat>, x: nat): (i: nat)
    requires x in xs
    ensures i < |xs| && xs[i] == x
  {
    if xs[0] == x then 0 else 1 + IndexOf(xs[1..], x)
  }

  /** The edits counted by striking out, one after the other, the digests the lists share. */
  function Unmatched(xs: seq<nat>, ys: seq<nat>): nat
    decreases |xs|
  {
    if xs == [] then |ys|
    else if xs[0] in ys then Unmatched(Without(xs, 0), Without(ys, IndexOf(ys, xs[0])))
    else Unmatched(Without(xs, 0), ys) + 1
  }

  lemma {:induction false} UnmatchedIsEdits(xs: seq<nat>, ys: seq<nat>)
    ensures Unmatched(xs, ys) == Edits(xs, ys)
    decreases |xs|
  {
    if xs == [] {
      assert multiset(ys) - multiset(xs) == multiset(ys);
    } else if xs[0] in ys {
      EditsShared(xs, 0, ys, IndexOf(ys, xs[0]));
      UnmatchedIsEdits(Without(xs, 0), Without(ys, IndexOf(ys, xs[0])));
    } else {
      EditsExtra(xs, 0, ys);
      UnmatchedIsEdits(Without(xs, 0), ys);
    }
  }

  lemma {:induction false} VotesMoveUnmatched(xs: seq<nat>, ys: seq<nat>, i: nat)
    ensures -(Unmatched(xs, ys) as int) <= Votes(xs, i) - Votes(ys, i) <= Unmatched(xs, ys)
    decreases |xs|
  {
    if xs == [] {
      VotesAtMost(ys, i);
    } else if xs[0] in ys {
      VotesMoveShared(xs, 0, ys, IndexOf(ys, xs[0]), i);
      VotesMoveUnmatched(Without(xs, 0), Without(ys, IndexOf(ys, xs[0])), i);
    } else {
      VotesMoveExtra(xs, 0, i);
      VotesMoveUnmatched(Without(xs, 0), ys, i);
    }
  }

  /** Each insertion or deletion moves a bit's weight by at most one. */
  lemma VotesMove(xs: seq<nat>, ys: seq<nat>, i: nat)
    ensures Abs(Votes(xs, i) - Votes(ys, i)) <= Edits(xs, ys)
  {
    VotesMoveUnmatched(xs, ys, i);
    UnmatchedIsEdits(xs, ys);
  }

  /** How many of the bits 0, ..., n - 1 have a weight w with -k <= w < k. */
  function WeakBits(hs: seq<nat>, k: nat, n: nat): nat {
    if n == 0 then 0 else WeakBits(hs, k, n - 1) + One(Votes(hs, n - 1) + k >= 0 && Votes(hs, n - 1) < k)
  }

  lemma {:induction false} DifferingAreWeak(xs: seq<nat>, ys: seq<nat>, k: nat, n: nat)
    requires xs != [] && ys != [] && n <= NUM_BITS
    requires forall i: nat | i < n :: Abs(Votes(xs, i) - Votes(ys, i)) <= k
    ensures Differing(Fingerprint(xs), Fingerprint(ys), n) <= WeakBits(xs, k, n)
  {
    if n > 0 {
      DifferingAreWeak(xs, ys, k, n - 1);
      BitsByVotes(xs, n - 1);
      BitsByVotes(ys, n - 1);
      assert Abs(Votes(xs, n - 1) - Votes(ys, n - 1)) <= k;
    }
  }

  /** If two non-empty shingle lists differ by k insertions and deletions, their fingerprints differ in no more
      bits than have a weight within k of changing sides. */
  lemma Stability(xs: seq<nat>, ys: seq<nat>)
    requires xs != [] && ys != []
    ensures HammingDistance(Fingerprint(xs), Fingerprint(ys)) <= WeakBits(xs, Edits(xs, ys), NUM_BITS)
  {
    forall i: nat | i < NUM_BITS ensures Abs(Votes(xs, i) - Votes(ys, i)) <= Edits(xs, ys) {
      VotesMove(xs, ys, i);
    }
    DifferingAreWeak(xs, ys, Edits(xs, ys), NUM_BITS);
    DistanceCountsBits(Fingerprint(xs), Fingerprint(ys), NUM_BITS);
  }

  lemma {:induction false} NoWeakBits(hs: seq<nat>, n: nat)
    ensures WeakBits(hs, 0, n) == 0
  {
    if n > 0 {
      NoWeakBits(hs, n - 1);
    }
  }

  /** The fingerprint depends on the shingles, not on their order. */
  lemma OrderIrrelevant(xs: seq<nat>, ys: seq<nat>)
    requires multiset(xs) == multiset(ys)
    ensures Fingerprint(xs) == Fingerprint(ys)
  {
    assert |xs| == |multiset(xs)| == |ys|;
    if xs != [] {
      assert multiset(xs) - multiset(ys) == multiset{};
      Stability(xs, ys);
      NoWeakBits(xs, NUM_BITS);
      DistanceIsMetric(Fingerprint(xs), Fingerprint(ys), 0);
    }
  }

  // ---- Edits of a text --------------------------------------------------------------------------------------

  lemma {:induction false} WeakBitsGrow(hs: seq<nat>, k: nat, l: nat, n: nat)
    requires k <= l
    ensures WeakBits(hs, k, n) <= WeakBits(hs, l, n)
  {
    if n > 0 {
      WeakBitsGrow(hs, k, l, n - 1);
    }
  }

  lemma MiddleEdits(front: seq<nat>, xs: seq<nat>, ys: seq<nat>, back: seq<nat>)
    ensures Edits(front + xs + back, front + ys + back) <= |xs| + |ys|
  {
    var a := multiset(front) + multiset(back);
    assert multiset(front + xs + back) == a + multiset(xs);
    assert multiset(front + ys + back) == a + multiset(ys);
    assert (a + multiset(xs)) - (a + multiset(ys)) == multiset(xs) - multiset(ys);
    assert (a + multiset(ys)) - (a + multiset(xs)) == multiset(ys) - multiset(xs);
    FewerLeft(multiset(xs), multiset(ys));
    FewerLeft(multiset(ys), multiset(xs));
  }

  lemma FewerLeft<T>(a: multiset<T>, b: multiset<T>)
    ensures |a - b| <= |a|
  {
    assert a == (a - b) + (a * b);
  }

  lemma StabilityWithin(xs: seq<nat>, ys: seq<nat>, k: nat)
    requires xs != [] && ys != [] && Edits(xs, ys) <= k
    ensures HammingDistance(Fingerprint(xs), Fingerprint(ys)) <= WeakBits(xs, k, NUM_BITS)
  {
    Stability(xs, ys);
    WeakBitsGrow(xs, Edits(xs, ys), k, NUM_BITS);
  }

  function TextDigests(h: Hashing, words: seq<string>): seq<nat> {
    Digests(h, Shingles(words, SHINGLE_WIDTH))
  }

  /** The number of shingles of a text of n words that is long enough. */
  function Windows(n: nat): nat {
    if n < SHINGLE_WIDTH then 0 else n - SHINGLE_WIDTH + 1
  }

  lemma DigestAt(h: Hashing, words: seq<string>, i: nat)
    requires i < Windows(|words|)
    ensures |TextDigests(h, words)| == Windows(|words|)
    ensures TextDigests(h, words)[i] == h.digest(Join(words[i..i + SHINGLE_WIDTH]))
  {
  }

  lemma SameRun<T>(us: seq<T>, vs: seq<T>, i: nat, j: nat, n: nat, m: nat, w: nat)
    requires i + n <= |us| && j + n <= |vs| && m + w <= n
    requires us[i..i + n] == vs[j..j + n]
    ensures us[i + m..i + m + w] == vs[j + m..j + m + w]
  {
    var a, b := us[i + m..i + m + w], vs[j + m..j + m + w];
    forall t | 0 <= t < w ensures a[t] == b[t] {
      assert us[i..i + n][m + t] == vs[j..j + n][m + t];
    }
  }

  lemma SameShingle(h: Hashing, us: seq<string>, vs: seq<string>, i: nat, j: nat, n: nat, m: nat)
    requires m < n && i + n <= Windows(|us|) && j + n <= Windows(|vs|)
    requires us[i..i + n + SHINGLE_WIDTH - 1] == vs[j..j + n + SHINGLE_WIDTH - 1]
    ensures |TextDigests(h, us)| == Windows(|us|) && |TextDigests(h, vs)| == Windows(|vs|)
    ensures TextDigests(h, us)[i + m] == TextDigests(h, vs)[j + m]
  {
    SameRun(us, vs, i, j, n + SHINGLE_WIDTH - 1, m, SHINGLE_WIDTH);
    DigestAt(h, us, i + m);
    DigestAt(h, vs, j + m);
  }

  /** Equal runs of words have equal shingles. */
  lemma SameShingles(h: Hashing, us: seq<string>, vs: seq<string>, i: nat, j: nat, n: nat)
    requires 0 < n && i + n <= Windows(|us|) && j + n <= Windows(|vs|)
    requires us[i..i + n + SHINGLE_WIDTH - 1] == vs[j..j + n + SHINGLE_WIDTH - 1]
    ensures |TextDigests(h, us)| == Windows(|us|) && |TextDigests(h, vs)| == Windows(|vs|)
    ensures TextDigests(h, us)[i..i + n] == TextDigests(h, vs)[j..j + n]
  {
    var us', vs' := TextDigests(h, us), TextDigests(h, vs);
    DigestAt(h, us, i);
    DigestAt(h, vs, j);
    var a, b := us'[i..i + n], vs'[j..j + n];
    forall m | 0 <= m < n ensures a[m] == b[m] {
      SameShingle(h, us, vs, i, j, n, m);
    }
  }

  lemma FrontShinglesKept(h: Hashing, us: seq<string>, vs: seq<string>, front: nat)
    requires front <= Windows(|us|) && front <= Windows(|vs|)
    requires Windows(|us|) > 0 && Windows(|vs|) > 0
    requires front > 0 ==> us[..front + SHINGLE_WIDTH - 1] == vs[..front + SHINGLE_WIDTH - 1]
    ensures |TextDigests(h, us)| == Windows(|us|) && |TextDigests(h, vs)| == Windows(|vs|)
    ensures TextDigests(h, us)[..front] == TextDigests(h, vs)[..front]
  {
    DigestAt(h, us, 0);
    DigestAt(h, vs, 0);
    if front > 0 {
      SameShingles(h, us, vs, 0, 0, front);
    }
  }

  lemma BackShinglesKept(h: Hashing, us: seq<string>, vs: seq<string>, back: nat)
    requires back <= Windows(|us|) && back <= Windows(|vs|)
    requires Windows(|us|) > 0 && Windows(|vs|) > 0
    requires back > 0 ==> us[Windows(|us|) - back..] == vs[Windows(|vs|) - back..]
    ensures |TextDigests(h, us)| == Windows(|us|) && |TextDigests(h, vs)| == Windows(|vs|)
    ensures TextDigests(h, us)[Windows(|us|) - back..] == TextDigests(h, vs)[Windows(|vs|) - back..]
  {
    var us', vs' := TextDigests(h, us), TextDigests(h, vs);
    DigestAt(h, us, 0);
    DigestAt(h, vs, 0);
    if back > 0 {
      var i, j := |us'| - back, |vs'| - back;
      assert us[i..i + back + SHINGLE_WIDTH - 1] == us[i..] && vs[j..j + back + SHINGLE_WIDTH - 1] == vs[j..];
      SameShingles(h, us, vs, i, j, back);
      assert us'[|us'| - back..|us'|] == us'[|us'| - back..];
      assert vs'[|vs'| - back..|vs'|] == vs'[|vs'| - back..];
    } else {
      assert us'[|us'|..] == [] && vs'[|vs'|..] == [];
    }
  }

  lemma FrontAndBackKept(us: seq<nat>, vs: seq<nat>, front: nat, back: nat)
    requires front + back <= |us| && front + back <= |vs|
    requires us[..front] == vs[..front] && us[|us| - back..] == vs[|vs| - back..]
    ensures Edits(us, vs) <= |us| + |vs| - 2 * (front + back)
  {
    var x, y := us[front..|us| - back], vs[front..|vs| - back];
    assert us == us[..front] + x + us[|us| - back..];
    assert vs == us[..front] + y + us[|us| - back..];
    MiddleEdits(us[..front], x, y, us[|us| - back..]);
  }

  /** Texts that agree in their first and last words, up to where front shingles begin and back shingles end, differ in
      the shingles between. */
  lemma ShinglesBetween(h: Hashing, us: seq<string>, vs: seq<string>, front: nat, back: nat)
    requires front + back <= Windows(|us|) && front + back <= Windows(|vs|)
    requires Windows(|us|) > 0 && Windows(|vs|) > 0
    requires front > 0 ==> us[..front + SHINGLE_WIDTH - 1] == vs[..front + SHINGLE_WIDTH - 1]
    requires back > 0 ==> us[Windows(|us|) - back..] == vs[Windows(|vs|) - back..]
    ensures Edits(TextDigests(h, us), TextDigests(h, vs)) <= Windows(|us|) + Windows(|vs|) - 2 * (front + back)
  {
    FrontShinglesKept(h, us, vs, front);
    BackShinglesKept(h, us, vs, back);
    FrontAndBackKept(TextDigests(h, us), TextDigests(h, vs), front, back);
  }

  /** The words before and behind a run, and how many shingles lie within them. */
  lemma AroundTheRun(pre: seq<string>, run: seq<string>, post: seq<string>)
    ensures var us := pre + run + post;
            && Windows(|pre|) + Windows(|post|) <= Windows(|us|)
            && (Windows(|pre|) > 0 ==> us[..Windows(|pre|) + SHINGLE_WIDTH - 1] == pre)
            && (Windows(|post|) > 0 ==> us[Windows(|us|) - Windows(|post|)..] == post)
  {
  }

  /** Replacing a run of words changes only the shingles that overlap it. */
  lemma ReplacedWords(h: Hashing, pre: seq<string>, before: seq<string>, after: seq<string>, post: seq<string>)
    requires Windows(|pre| + |before| + |post|) > 0 && Windows(|pre| + |after| + |post|) > 0
    ensures Edits(TextDigests(h, pre + before + post), TextDigests(h, pre + after + post))
            <= |before| + |after| + 2 * (SHINGLE_WIDTH - 1)
  {
    AroundTheRun(pre, before, post);
    AroundTheRun(pre, after, post);
    ShinglesBetween(h, pre + before + post, pre + after + post, Windows(|pre|), Windows(|post|));
  }

  /** Replacing a run of words moves only bits whose weight is within the words taken out and put in plus
      twice the overlap of a shingle with its neighbours: within 6 for one word. */
  lemma EditedText(h: Hashing, pre: seq<string>, before: seq<string>, after: seq<string>, post: seq<string>, k: nat)
    requires Windows(|pre| + |before| + |post|) > 0 && Windows(|pre| + |after| + |post|) > 0
    requires k == |before| + |after| + 2 * (SHINGLE_WIDTH - 1)
    ensures var xs, ys := TextDigests(h, pre + before + post), TextDigests(h, pre + after + post);
            HammingDistance(Fingerprint(xs), Fingerprint(ys)) <= WeakBits(xs, k, NUM_BITS)
  {
    DigestAt(h, pre + before + post, 0);
    DigestAt(h, pre + after + post, 0);
    ReplacedWords(h, pre, before, after, post);
    StabilityWithin(TextDigests(h, pre + before + post), TextDigests(h, pre + after + post), k);
  }
}
