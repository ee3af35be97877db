/** Which node crawls a URL: the known peer whose hash is nearest to the URL's hash in the XOR distance. */
module UrlAssignment {
  import opened Bits

  type Digit = d: nat | d < 16

  /** A hash as hexadecimal digits, the most significant first. */
  type Hex = seq<Digit>

  function Value(h: Hex): nat {
    if h == [] then 0 else 16 * Value(h[..|h| - 1]) + h[|h| - 1]
  }

  lemma {:induction false} ValueFits(h: Hex)
    ensures Value(h) < Pow2(4 * |h|)
  {
    if h != [] {
      ValueFits(h[..|h| - 1]);
      ScaleOnce(1, |h| - 1);
    }
  }

  /** str.ljust(n, "0"): the padding goes to the right. */
  function PadRight(h: Hex, n: nat): Hex
    decreases n - |h|
  {
    if |h| >= n then h else PadRight(h + [0], n)
  }

  function XorDistance(a: Hex, b: Hex): nat {
    var n := if |a| > |b| then |a| else |b|;
    Xor(Value(PadRight(a, n)), Value(PadRight(b, n)))
  }

  lemma {:induction false} ValueInjective(a: Hex, b: Hex)
    requires |a| == |b| && Value(a) == Value(b)
    ensures a == b
  {
    if a != [] {
      var n := |a| - 1;
      assert a[n] == b[n] && Value(a[..n]) == Value(b[..n]);
      ValueInjective(a[..n], b[..n]);
      assert a == a[..n] + [a[n]] && b == b[..n] + [b[n]];
    }
  }

  /** No two hashes of full length are at the same distance from a URL. */
  lemma DistanceSeparates(u: Hex, a: Hex, b: Hex)
    requires |u| == |a| == |b| && XorDistance(u, a) == XorDistance(u, b)
    ensures a == b
  {
    XorInjective(Value(u), Value(a), Value(b));
    ValueInjective(a, b);
  }

  lemma {:induction false} PadRightScales(h: Hex, n: nat)
    requires |h| <= n
    ensures Value(PadRight(h, n)) == Value(h) * Pow2(4 * (n - |h|))
    decreases n - |h|
  {
    if |h| < n {
      PadRightScales(h + [0], n);
      assert (h + [0])[..|h|] == h;
      ScaleOnce(Value(h), n - |h| - 1);
    }
  }

  lemma ScaleOnce(x: nat, k: nat)
    ensures 16 * x * Pow2(4 * k) == x * Pow2(4 * (k + 1))
  {
    PowersAdd(4 * k, 4);
    assert Pow2(4) == 16;
  }

  /** Hashes of different length are compared from their first digit on: a hash and the same hash with a 0
      appended are at distance 0. */
  lemma ShortHashesCollide(h: Hex)
    ensures XorDistance(h, h + [0]) == 0
  {
    SelfXor(Value(h + [0]));
  }

  lemma {:induction false} SelfXor(x: nat)
    ensures Xor(x, x) == 0
  {
    if x > 0 {
      SelfXor(x / 2);
    }
  }

  lemma {:induction false} XorCommutes(x: nat, y: nat)
    ensures Xor(x, y) == Xor(y, x)
  {
    if x > 0 || y > 0 {
      XorCommutes(x / 2, y / 2);
    }
  }

  lemma ScaledEqualIff(x: nat, k: nat)
    requires k > 0
    ensures x * Pow2(4 * k) == x <==> x == 0
  {
    PowersAdd(4 * (k - 1), 4);
    assert Pow2(4 * k) >= 16;
    if x > 0 {
      assert x * Pow2(4 * k) >= x * 16;
    }
  }

  /** The distance of hashes of different lengths is that of their values as numbers, which padding on the left would
      give, exactly if the shorter one is all zeros. */
  lemma PadsAsNumbersIff(a: Hex, b: Hex)
    requires |a| < |b|
    ensures XorDistance(a, b) == Xor(Value(a), Value(b)) <==> Value(a) == 0
    ensures XorDistance(b, a) == Xor(Value(b), Value(a)) <==> Value(a) == 0
  {
    var padded := Value(PadRight(a, |b|));
    PadRightScales(a, |b|);
    ScaledEqualIff(Value(a), |b| - |a|);
    XorCommutes(padded, Value(b));
    XorCommutes(Value(a), Value(b));
    if XorDistance(b, a) == Xor(Value(b), Value(a)) {
      XorInjective(Value(b), padded, Value(a));
    }
  }

  /** SHA-256 of a peer id or URL. */
  type Hash = string -> Hex

  ghost predicate FullLength(hash: Hash) {
    forall s: string :: |hash(s)| == 64
  }

  function Distance(hash: Hash, url: string, peer: string): nat {
    XorDistance(hash(url), hash(peer))
  }

  predicate DistinctHashes(hash: Hash, peers: set<string>) {
    forall p, q | p in peers && q in peers && p != q :: hash(p) != hash(q)
  }

  /** No known peer is nearer. */
  predicate IsClosest(hash: Hash, url: string, peers: set<string>, p: string) {
    p in peers && forall q | q in peers :: Distance(hash, url, p) <= Distance(hash, url, q)
  }

  /** The search that starts from `best` and moves to every peer that is strictly nearer. */
  function Search(hash: Hash, url: string, best: string, peers: seq<string>): string {
    if peers == [] then best
    else
      var b := Search(hash, url, best, peers[..|peers| - 1]);
      var p := peers[|peers| - 1];
      if Distance(hash, url, p) < Distance(hash, url, b) then p else b
  }

  ghost function Known(peers: seq<string>): set<string> {
    set p | p in peers
  }

  lemma {:induction false} SearchFinds(hash: Hash, url: string, best: string, peers: seq<string>)
    ensures IsClosest(hash, url, Known(peers) + {best}, Search(hash, url, best, peers))
    ensures IsClosest(hash, url, Known(peers) + {best}, best) ==> Search(hash, url, best, peers) == best
  {
    if peers != [] {
      var init, p := peers[..|peers| - 1], peers[|peers| - 1];
      SearchFinds(hash, url, best, init);
      assert peers == init + [p];
      assert Known(peers) == Known(init) + {p};
    }
  }

  /** Distinct hashes leave no ties. */
  lemma OneClosest(hash: Hash, url: string, peers: set<string>, p: string, q: string)
    requires FullLength(hash) && DistinctHashes(hash, peers)
    requires IsClosest(hash, url, peers, p) && IsClosest(hash, url, peers, q)
    ensures p == q
  {
    DistanceSeparates(hash(url), hash(p), hash(q));
  }

  // ---- A node's view ----------------------------------------------------------------------------------------

  /** A node: its own id and the peers it knows, in the order it learnt of them. */
  datatype Node = Node(local: string, peers: seq<string>)

  predicate KnowsItself(n: Node) {
    n.local in n.peers
  }

  function ClosestPeer(hash: Hash, n: Node, url: string): string {
    Search(hash, url, n.local, n.peers)
  }

  predicate IsLocalOwner(hash: Hash, n: Node, url: string) {
    ClosestPeer(hash, n, url) == n.local
  }

  function FilterLocalUrls(hash: Hash, n: Node, urls: seq<string>): seq<string> {
    if urls == [] then []
    else FilterLocalUrls(hash, n, urls[..|urls| - 1])
         + (if IsLocalOwner(hash, n, urls[|urls| - 1]) then [urls[|urls| - 1]] else [])
  }

  function AddPeer(n: Node, p: string): Node {
    if p in n.peers then n else n.(peers := n.peers + [p])
  }

  function Drop(peers: seq<string>, p: string): seq<string> {
    if peers == [] then []
    else Drop(peers[..|peers| - 1], p) + (if peers[|peers| - 1] == p then [] else [peers[|peers| - 1]])
  }

  function RemovePeer(n: Node, p: string): Node {
    if p == n.local then n else n.(peers := Drop(n.peers, p))
  }

  lemma {:induction false} DropKnown(peers: seq<string>, p: string)
    ensures Known(Drop(peers, p)) == Known(peers) - {p}
  {
    if peers != [] {
      var init, last := peers[..|peers| - 1], peers[|peers| - 1];
      DropKnown(init, p);
      assert peers == init + [last];
      assert Known(peers) == Known(init) + {last};
      assert Known(Drop(peers, p)) == Known(Drop(init, p)) + if last == p then {} else {last};
    }
  }

  predicate NoRepeats(peers: seq<string>) {
    forall i, j | 0 <= i < j < |peers| :: peers[i] != peers[j]
  }

  lemma {:induction false} DropKeepsDistinct(peers: seq<string>, p: string)
    requires NoRepeats(peers)
    ensures NoRepeats(Drop(peers, p))
  {
    if peers != [] {
      var init, last := peers[..|peers| - 1], peers[|peers| - 1];
      DropKeepsDistinct(init, p);
      DropKnown(init, p);
      var rest := Drop(init, p);
      assert Drop(peers, p) == if last == p then rest else rest + [last];
      assert last !in Known(init);
      forall i | 0 <= i < |rest| ensures rest[i] != last {
        assert rest[i] in Known(rest);
      }
    }
  }

  lemma ClosestIsClosest(hash: Hash, n: Node, url: string)
    requires KnowsItself(n)
    ensures IsClosest(hash, url, Known(n.peers), ClosestPeer(hash, n, url))
    ensures IsLocalOwner(hash, n, url) <==> IsClosest(hash, url, Known(n.peers), n.local)
  {
    SearchFinds(hash, url, n.local, n.peers);
    assert Known(n.peers) + {n.local} == Known(n.peers);
  }

  // ---- Agreement, partition, coverage, movement -------------------------------------------------------------

  /** Nodes that know the same peers agree on every URL, whichever of them they are and whatever the order in
      which they learnt of each other. */
  lemma Agreement(hash: Hash, m: Node, n: Node, url: string)
    requires FullLength(hash) && KnowsItself(m) && KnowsItself(n)
    requires Known(m.peers) == Known(n.peers) && DistinctHashes(hash, Known(m.peers))
    ensures ClosestPeer(hash, m, url) == ClosestPeer(hash, n, url)
  {
    ClosestIsClosest(hash, m, url);
    ClosestIsClosest(hash, n, url);
    OneClosest(hash, url, Known(m.peers), ClosestPeer(hash, m, url), ClosestPeer(hash, n, url));
  }

  /** Whatever the views, the node nearest of all crawls the URL itself. */
  lemma NearestClaims(hash: Hash, n: Node, all: set<string>, url: string)
    requires KnowsItself(n) && Known(n.peers) <= all
    requires IsClosest(hash, url, all, n.local)
    ensures IsLocalOwner(hash, n, url)
  {
    ClosestIsClosest(hash, n, url);
  }

  lemma {:induction false} SomeClosest(hash: Hash, url: string, peers: set<string>) returns (p: string)
    requires peers != {}
    ensures IsClosest(hash, url, peers, p)
  {
    var q :| q in peers;
    var rest := peers - {q};
    assert peers == rest + {q};
    if rest == {} {
      p := q;
    } else {
      var r := SomeClosest(hash, url, rest);
      p := if Distance(hash, url, q) < Distance(hash, url, r) then q else r;
    }
  }

  /** The nodes of a network, each with its own id and a view of the others. */
  ghost predicate IsNetwork(nodes: map<string, Node>) {
    forall id | id in nodes ::
      nodes[id].local == id && KnowsItself(nodes[id]) && Known(nodes[id].peers) <= nodes.Keys
  }

  /** Under any views, every URL is crawled by some node. */
  lemma Covered(hash: Hash, nodes: map<string, Node>, url: string)
    requires IsNetwork(nodes) && nodes.Keys != {}
    ensures exists id :: id in nodes && IsLocalOwner(hash, nodes[id], url)
  {
    var p := SomeClosest(hash, url, nodes.Keys);
    NearestClaims(hash, nodes[p], nodes.Keys, url);
  }

  /** Under full views, by exactly one. */
  lemma CoveredOnce(hash: Hash, nodes: map<string, Node>, url: string, p: string, q: string)
    requires FullLength(hash) && IsNetwork(nodes) && DistinctHashes(hash, nodes.Keys)
    requires p in nodes && q in nodes && Known(nodes[p].peers) == Known(nodes[q].peers)
    requires IsLocalOwner(hash, nodes[p], url) && IsLocalOwner(hash, nodes[q], url)
    ensures p == q
  {
    Agreement(hash, nodes[p], nodes[q], url);
  }

  /** Learning of a peer moves URLs only to that peer. */
  lemma AddMovesOnlyToNew(hash: Hash, n: Node, p: string, url: string)
    requires FullLength(hash) && KnowsItself(n) && DistinctHashes(hash, Known(n.peers) + {p})
    ensures ClosestPeer(hash, AddPeer(n, p), url) in {ClosestPeer(hash, n, url), p}
    ensures ClosestPeer(hash, AddPeer(n, p), url) == p
      <==> IsClosest(hash, url, Known(n.peers) + {p}, p)
  {
    var n' := AddPeer(n, p);
    assert Known(n'.peers) == Known(n.peers) + {p};
    ClosestIsClosest(hash, n, url);
    ClosestIsClosest(hash, n', url);
    var c' := ClosestPeer(hash, n', url);
    if c' != p {
      OneClosest(hash, url, Known(n.peers), c', ClosestPeer(hash, n, url));
    }
    if IsClosest(hash, url, Known(n.peers) + {p}, p) {
      OneClosest(hash, url, Known(n'.peers), c', p);
    }
  }

  /** Forgetting a peer moves only its own URLs. */
  lemma RemoveMovesOnlyItsOwn(hash: Hash, n: Node, p: string, url: string)
    requires FullLength(hash) && KnowsItself(n) && DistinctHashes(hash, Known(n.peers))
    requires ClosestPeer(hash, n, url) != p
    ensures ClosestPeer(hash, RemovePeer(n, p), url) == ClosestPeer(hash, n, url)
    ensures RemovePeer(n, p).local == n.local
    ensures p != n.local ==> forall q :: q in RemovePeer(n, p).peers <==> q in n.peers && q != p
  {
    var n' := RemovePeer(n, p);
    assert forall q :: q in n'.peers <==> q in Known(n'.peers);
    DropKnown(n.peers, p);
    ClosestIsClosest(hash, n, url);
    if p != n.local {
      assert KnowsItself(n') by { assert n.local in Known(n'.peers); }
      ClosestIsClosest(hash, n', url);
      OneClosest(hash, url, Known(n'.peers), ClosestPeer(hash, n', url), ClosestPeer(hash, n, url));
    }
  }

  // ---- The nodes' URL lists partition any list of URLs ------------------------------------------------------

  function TimesKept(hash: Hash, nodes: seq<Node>, urls: seq<string>, url: string): nat {
    if nodes == [] then 0
    else TimesKept(hash, nodes[..|nodes| - 1], urls, url)
         + multiset(FilterLocalUrls(hash, nodes[|nodes| - 1], urls))[url]
  }

  lemma {:induction false} FilterCounts(hash: Hash, n: Node, urls: seq<string>, url: string)
    ensures multiset(FilterLocalUrls(hash, n, urls))[url]
         == if IsLocalOwner(hash, n, url) then multiset(urls)[url] else 0
  {
    if urls != [] {
      FilterCounts(hash, n, urls[..|urls| - 1], url);
      assert urls == urls[..|urls| - 1] + [urls[|urls| - 1]];
    }
  }

  lemma {:induction false} NobodyKeeps(hash: Hash, nodes: seq<Node>, urls: seq<string>, url: string)
    requires forall n | n in nodes :: !IsLocalOwner(hash, n, url)
    ensures TimesKept(hash, nodes, urls, url) == 0
  {
    if nodes != [] {
      var last := nodes[|nodes| - 1];
      assert last in nodes;
      FilterCounts(hash, last, urls, url);
      NobodyKeeps(hash, nodes[..|nodes| - 1], urls, url);
    }
  }

  lemma {:induction false} OneKeeps(hash: Hash, nodes: seq<Node>, urls: seq<string>, url: string, k: nat)
    requires k < |nodes| && IsLocalOwner(hash, nodes[k], url)
    requires forall i | 0 <= i < |nodes| && i != k :: !IsLocalOwner(hash, nodes[i], url)
    ensures TimesKept(hash, nodes, urls, url) == multiset(urls)[url]
  {
    var last := |nodes| - 1;
    FilterCounts(hash, nodes[last], urls, url);
    if k == last {
      NobodyKeeps(hash, nodes[..last], urls, url);
    } else {
      OneKeeps(hash, nodes[..last], urls, url, k);
    }
  }

  /** Nodes that all know each other and nobody else. */
  ghost predicate FullMesh(nodes: seq<Node>) {
    && (forall i, j | 0 <= i < j < |nodes| :: nodes[i].local != nodes[j].local)
    && (forall n | n in nodes :: Known(n.peers) == Ids(nodes))
  }

  ghost function Ids(nodes: seq<Node>): set<string> {
    set m | m in nodes :: m.local
  }

  lemma MeshOwner(hash: Hash, nodes: seq<Node>, url: string, p: string, n: Node)
    requires FullLength(hash) && FullMesh(nodes) && DistinctHashes(hash, Ids(nodes))
    requires IsClosest(hash, url, Ids(nodes), p) && n in nodes
    ensures IsLocalOwner(hash, n, url) <==> n.local == p
  {
    assert n.local in Ids(nodes) && Known(n.peers) == Ids(nodes);
    ClosestIsClosest(hash, n, url);
    OneClosest(hash, url, Ids(nodes), ClosestPeer(hash, n, url), p);
  }

  /** In a full mesh each URL of any list is kept, as often as it is listed, by exactly one node. */
  lemma Partition(hash: Hash, nodes: seq<Node>, urls: seq<string>, url: string)
    requires FullLength(hash) && FullMesh(nodes) && nodes != []
    requires DistinctHashes(hash, Ids(nodes))
    ensures TimesKept(hash, nodes, urls, url) == multiset(urls)[url]
  {
    assert nodes[0].local in Ids(nodes);
    var p := SomeClosest(hash, url, Ids(nodes));
    var k: nat :| k < |nodes| && nodes[k].local == p;
    forall i | 0 <= i < |nodes| ensures IsLocalOwner(hash, nodes[i], url) <==> i == k {
      MeshOwner(hash, nodes, url, p, nodes[i]);
    }
    OneKeeps(hash, nodes, urls, url, k);
  }
}
